/** The line parser that reads the root importer of a pnpm lockfile, and the gate that compares it
    with the declared dependencies. */
module Lockfile {
  import opened Text
  import opened Wrappers

  // ---------------------------------------------------------------- text

  predicate Space(c: char) {
    c == ' ' || '\t' <= c <= '\r' || '\U{1c}' <= c <= '\U{1f}'
  }

  lemma SpaceExactly(c: char)
    ensures Space(c) <==> c as int in {9, 10, 11, 12, 13, 28, 29, 30, 31, 32}
  {
  }

  predicate QuoteMark(c: char) {
    c == '\'' || c == '\"'
  }

  function Strip(s: string): string {
    StripBoth(s, Space)
  }

  function StripQuotes(s: string): string {
    StripBoth(s, QuoteMark)
  }

  function Indent(line: string): nat {
    if line != "" && line[0] == ' ' then 1 + Indent(line[1..]) else 0
  }

  /** `split(":", 1)[1]`, for a text with a colon. */
  function AfterColon(s: string): string {
    if s == "" then "" else if s[0] == ':' then s[1..] else AfterColon(s[1..])
  }

  predicate EndsWithColon(s: string) {
    s != "" && s[|s| - 1] == ':'
  }

  function Value(stripped: string): string {
    StripQuotes(Strip(AfterColon(stripped)))
  }

  // ---------------------------------------------------------------- the parser

  datatype Entry = Entry(specifier: Option<string>, version: Option<string>)

  type Entries = map<string, Entry>

  datatype State = State(
    entries: Entries, inImporters: bool, inRoot: bool, section: Option<string>, current: Option<string>)

  const INITIAL := State(map[], false, false, None, None)

  predicate DependencyHeader(stripped: string) {
    stripped == "dependencies:" || stripped == "devDependencies:"
  }

  predicate Skipped(stripped: string) {
    stripped == "" || stripped[0] == '#'
  }

  function OnToken(s: State, indent: nat, stripped: string): State
    requires stripped != ""
  {
    if indent == 0 then State(s.entries, stripped == "importers:", false, None, None)
    else if !s.inImporters then s
    else if indent == 2 then
      var name := if EndsWithColon(stripped) then stripped[..|stripped| - 1] else stripped;
      s.(inRoot := StripQuotes(name) == ".", section := None, current := None)
    else if !s.inRoot then s
    else if indent == 4 && DependencyHeader(stripped) then
      s.(section := Some(stripped[..|stripped| - 1]), current := None)
    else if indent <= 4 then s.(section := None, current := None)
    else if s.section.None? then s
    else if indent == 6 && EndsWithColon(stripped) then
      var name := StripQuotes(stripped[..|stripped| - 1]);
      s.(current := Some(name),
         entries := if name in s.entries then s.entries else s.entries[name := Entry(None, None)])
    else if indent == 8 && s.current.Some? && s.current.value != "" && s.current.value in s.entries then
      var name := s.current.value;
      if "specifier:" <= stripped then
        s.(entries := s.entries[name := s.entries[name].(specifier := Some(Value(stripped)))])
      else if "version:" <= stripped then
        s.(entries := s.entries[name := s.entries[name].(version := Some(Value(stripped)))])
      else s
    else s
  }

  function OnLine(s: State, line: string): State {
    var stripped := Strip(line);
    if Skipped(stripped) then s else OnToken(s, Indent(line), stripped)
  }

  function Fold<S, T>(step: (S, T) -> S, s: S, items: seq<T>): S
    decreases |items|
  {
    if items == [] then s else Fold(step, step(s, items[0]), items[1..])
  }

  lemma {:induction false} FoldAppend<S, T>(step: (S, T) -> S, s: S, a: seq<T>, b: seq<T>)
    ensures Fold(step, s, a + b) == Fold(step, Fold(step, s, a), b)
    decreases |a|
  {
    if a == [] {
      assert a + b == b;
    } else {
      assert (a + b)[1..] == a[1..] + b;
      FoldAppend(step, step(s, a[0]), a[1..], b);
    }
  }

  function Scan(s: State, lines: seq<string>): State {
    Fold(OnLine, s, lines)
  }

  /** Inside a section of the root importer. */
  predicate Reading(s: State) {
    s.inImporters && s.inRoot && s.section.Some?
  }

  lemma {:induction false} BehindTheColon(key: string, rest: string)
    requires ':' !in key
    ensures AfterColon(key + ":" + rest) == rest
  {
    if key == "" {
      assert key + ":" + rest == ":" + rest;
    } else {
      assert (key + ":" + rest)[1..] == key[1..] + ":" + rest;
      BehindTheColon(key[1..], rest);
    }
  }

  /** The root importer is called a dot, with or without quotes and a colon; any other name leaves it. */
  lemma ImporterIsRead(s: State, text: string, colon: bool)
    requires s.inImporters && text != "" && (!colon ==> text[|text| - 1] != ':')
    ensures OnToken(s, 2, if colon then text + ":" else text) ==
            s.(inRoot := StripQuotes(text) == ".", section := None, current := None)
  {
    assert (text + ":")[..|text|] == text;
  }

  /** A line with a colon at its end names the dependency that is filled next; it gets an entry if it has none. */
  lemma NameIsRead(s: State, text: string)
    requires Reading(s)
    ensures var name := StripQuotes(text);
      OnToken(s, 6, text + ":") == s.(current := Some(name),
        entries := if name in s.entries then s.entries else s.entries[name := Entry(None, None)])
  {
    assert (text + ":")[..|text|] == text;
  }

  /** What stands behind the two keywords is recorded for it, nothing at all included. */
  lemma FieldsAreRead(s: State, rest: string)
    requires Reading(s) && s.current.Some? && s.current.value != "" && s.current.value in s.entries
    ensures var name, value := s.current.value, Some(StripQuotes(Strip(rest)));
      var entry := s.entries[name];
      && OnToken(s, 8, "specifier" + ":" + rest) == s.(entries := s.entries[name := Entry(value, entry.version)])
      && OnToken(s, 8, "version" + ":" + rest) == s.(entries := s.entries[name := Entry(entry.specifier, value)])
  {
    BehindTheColon("specifier", rest);
    BehindTheColon("version", rest);
    assert ("specifier" + ":" + rest)[..10] == "specifier:" && ("version" + ":" + rest)[..8] == "version:";
    assert ("version" + ":" + rest)[0] == 'v';
  }

  /** Any other line further in than the headers is passed over. */
  lemma NothingElseIsRead(s: State, indent: nat, stripped: string)
    requires stripped != "" && indent > 4
    requires !(indent == 6 && stripped[|stripped| - 1] == ':')
    requires indent == 8 && s.current.Some? && s.current.value != "" ==>
      !("specifier:" <= stripped) && !("version:" <= stripped)
    ensures OnToken(s, indent, stripped) == s
  {
  }

  /** Whatever stands as far out as the headers ends the name: a field belongs to a name of its own section. */
  lemma HeadersEndNames(s: State, indent: nat, stripped: string)
    requires stripped != "" && indent <= 4 && s.inImporters && s.inRoot
    ensures var t := OnToken(s, indent, stripped);
      && t.current.None? && t.entries == s.entries
      && (t.section.Some? <==> indent == 4 && (stripped == "dependencies:" || stripped == "devDependencies:"))
  {
  }

  predicate OpensImporters(line: string) {
    Indent(line) == 0 && Strip(line) == "importers:"
  }

  /** Nothing is read where no line opens the importers. */
  lemma {:induction false} OnlyBelowImporters(s: State, lines: seq<string>)
    requires !s.inImporters && !s.inRoot && forall line :: line in lines ==> !OpensImporters(line)
    ensures Scan(s, lines).entries == s.entries
    decreases |lines|
  {
    if lines != [] {
      assert !OpensImporters(lines[0]);
      OnlyBelowImporters(OnLine(s, lines[0]), lines[1..]);
    }
  }

  /** A header of an importer that is called a dot. */
  predicate OpensRoot(line: string) {
    Indent(line) == 2 && StripQuotes(if EndsWithColon(Strip(line)) then Strip(line)[..|Strip(line)| - 1] else Strip(line)) == "."
  }

  /** Nor where none opens the root importer. */
  lemma {:induction false} OnlyBelowTheRoot(s: State, lines: seq<string>)
    requires !s.inRoot && forall line :: line in lines ==> !OpensRoot(line)
    ensures Scan(s, lines).entries == s.entries
    decreases |lines|
  {
    if lines != [] {
      assert !OpensRoot(lines[0]);
      OnlyBelowTheRoot(OnLine(s, lines[0]), lines[1..]);
    }
  }

  lemma NoImportersNoEntries(lines: seq<string>)
    requires (forall line :: line in lines ==> !OpensImporters(line)) || (forall line :: line in lines ==> !OpensRoot(line))
    ensures Locked(lines) == map[]
  {
    if forall line :: line in lines ==> !OpensRoot(line) {
      OnlyBelowTheRoot(INITIAL, lines);
    } else {
      OnlyBelowImporters(INITIAL, lines);
    }
  }

  /** Every name being filled is in the table. */
  predicate Sound(s: State) {
    s.current.Some? ==> s.current.value in s.entries
  }

  function Locked(lines: seq<string>): Entries {
    Scan(INITIAL, lines).entries
  }

  method ParseRootImporter(lines: seq<string>) returns (entries: Entries)
    ensures entries == Locked(lines)
  {
    entries := map[];
    var inImporters, inRoot := false, false;
    var section: Option<string> := None;
    var current: Option<string> := None;
    for i := 0 to |lines|
      invariant Sound(State(entries, inImporters, inRoot, section, current))
      invariant Scan(State(entries, inImporters, inRoot, section, current), lines[i..]) == Scan(INITIAL, lines)
    {
      assert lines[i..][1..] == lines[i + 1..];
      var stripped, indent := Strip(lines[i]), Indent(lines[i]);
      if stripped == "" || stripped[0] == '#' {
        continue;
      }
      if indent == 0 {
        inImporters := stripped == "importers:";
        inRoot, section, current := false, None, None;
        continue;
      }
      if !inImporters {
        continue;
      }
      if indent == 2 {
        var name := if EndsWithColon(stripped) then stripped[..|stripped| - 1] else stripped;
        inRoot := StripQuotes(name) == ".";
        section, current := None, None;
        continue;
      }
      if !inRoot {
        continue;
      }
      if indent == 4 && DependencyHeader(stripped) {
        section, current := Some(stripped[..|stripped| - 1]), None;
        continue;
      }
      if indent <= 4 {
        section, current := None, None;
        continue;
      }
      if section.None? {
        continue;
      }
      if indent == 6 && EndsWithColon(stripped) {
        var name := StripQuotes(stripped[..|stripped| - 1]);
        current := Some(name);
        if name !in entries {
          entries := entries[name := Entry(None, None)];
        }
        continue;
      }
      if indent == 8 && current.Some? && current.value != "" {
        if "specifier:" <= stripped {
          entries := entries[current.value := entries[current.value].(specifier := Some(Value(stripped)))];
        } else if "version:" <= stripped {
          entries := entries[current.value := entries[current.value].(version := Some(Value(stripped)))];
        }
      }
    }
  }

  // ---------------------------------------------------------------- the older parser

  datatype OldState = OldState(specifiers: map<string, string>, section: Option<string>, current: Option<string>)

  const OLD_INITIAL := OldState(map[], None, None)

  function OldOnToken(s: OldState, indent: nat, stripped: string): OldState
    requires stripped != ""
  {
    if indent == 4 && DependencyHeader(stripped) then
      s.(section := Some(stripped[..|stripped| - 1]), current := None)
    else if indent <= 4 then s.(section := None, current := None)
    else if s.section.None? then s
    else if indent == 6 && EndsWithColon(stripped) then
      s.(current := Some(StripQuotes(stripped[..|stripped| - 1])))
    else if indent == 8 && s.current.Some? && s.current.value != "" && "specifier:" <= stripped then
      s.(specifiers := s.specifiers[s.current.value := Value(stripped)], current := None)
    else s
  }

  function OldOnLine(s: OldState, line: string): OldState {
    var stripped := Strip(line);
    if stripped == "" then s else OldOnToken(s, Indent(line), stripped)
  }

  /** In a section: a name, and the text behind the keyword, once for each name. */
  lemma OldLinesAreRead(s: OldState, text: string, rest: string)
    requires s.section.Some?
    ensures OldOnToken(s, 6, text + ":") == s.(current := Some(StripQuotes(text)))
    ensures s.current.Some? && s.current.value != "" ==>
      OldOnToken(s, 8, "specifier" + ":" + rest) ==
      s.(specifiers := s.specifiers[s.current.value := StripQuotes(Strip(rest))], current := None)
  {
    BehindTheColon("specifier", rest);
    assert (text + ":")[..|text|] == text && ("specifier" + ":" + rest)[..10] == "specifier:";
  }

  lemma NothingElseIsReadByTheOld(s: OldState, indent: nat, stripped: string)
    requires stripped != "" && indent > 4
    requires !(indent == 6 && stripped[|stripped| - 1] == ':')
    requires indent == 8 && s.current.Some? && s.current.value != "" ==> !("specifier:" <= stripped)
    ensures OldOnToken(s, indent, stripped) == s
  {
  }

  lemma HeadersEndNamesOfTheOld(s: OldState, indent: nat, stripped: string)
    requires stripped != "" && indent <= 4
    ensures var t := OldOnToken(s, indent, stripped);
      && t.current.None? && t.specifiers == s.specifiers
      && (t.section.Some? <==> indent == 4 && (stripped == "dependencies:" || stripped == "devDependencies:"))
  {
  }

  /** A comment that is not further in than the headers is nothing to the one parser and ends the section for the
      older one. */
  lemma CommentsEndOldSections(s: State, t: OldState, line: string)
    requires Strip(line) != "" && Strip(line)[0] == '#' && Indent(line) <= 4
    ensures OnLine(s, line) == s && OldOnLine(t, line) == t.(section := None, current := None)
  {
    assert "dependencies:"[0] == 'd' && "devDependencies:"[0] == 'd';
  }

  method ParseImporterDependencies(document: seq<string>) returns (specifiers: map<string, string>)
    ensures specifiers == Fold(OldOnLine, OLD_INITIAL, document).specifiers
  {
    specifiers := map[];
    var section: Option<string> := None;
    var current: Option<string> := None;
    for i := 0 to |document|
      invariant Fold(OldOnLine, OldState(specifiers, section, current), document[i..])
             == Fold(OldOnLine, OLD_INITIAL, document)
    {
      assert document[i..][1..] == document[i + 1..];
      var stripped, indent := Strip(document[i]), Indent(document[i]);
      if stripped == "" {
        continue;
      }
      if indent == 4 && DependencyHeader(stripped) {
        section, current := Some(stripped[..|stripped| - 1]), None;
        continue;
      }
      if indent <= 4 {
        section, current := None, None;
        continue;
      }
      if section.None? {
        continue;
      }
      if indent == 6 && EndsWithColon(stripped) {
        current := Some(StripQuotes(stripped[..|stripped| - 1]));
        continue;
      }
      if indent == 8 && current.Some? && current.value != "" && "specifier:" <= stripped {
        specifiers := specifiers[current.value := Value(stripped)];
        current := None;
      }
    }
  }

  // ---------------------------------------------------------------- the gate

  const EXPECTED_PIN := "pnpm@12.12.1"

  datatype Complaint =
    | NamesTheManager
    | NoWorkspace
    | NoPmOnFail
    | NoPin
    | WrongPin(pin: string)
    | Missing(name: string)
    | Undeclared(name: string)
    | WrongSpecifier(name: string, found: Option<string>)
    | Unresolved(name: string)

  /** What the gate looks at besides the dependencies. A missing and an empty workspace file count the same. */
  datatype Project = Project(
    namesTheManager: bool, workspace: Option<string>, ignoresPm: bool, pin: Option<string>)

  predicate HasWorkspace(p: Project) {
    p.workspace.Some? && p.workspace.value != ""
  }

  predicate NameDue(c: Complaint, locked: Entries, declared: map<string, string>) {
    match c
    case Missing(name) => name in declared && name !in locked
    case Undeclared(name) => name in locked && name !in declared
    case WrongSpecifier(name, found) =>
      name in locked && name in declared && found == locked[name].specifier && found != Some(declared[name])
    case Unresolved(name) =>
      name in locked && name in declared && (locked[name].version.None? || locked[name].version.value == "")
    case _ => false
  }

  predicate ProjectDue(c: Complaint, p: Project) {
    match c
    case NamesTheManager => p.namesTheManager
    case NoWorkspace => !HasWorkspace(p)
    case NoPmOnFail => HasWorkspace(p) && !p.ignoresPm
    case NoPin => p.pin.None?
    case WrongPin(pin) => p.pin == Some(pin) && pin != EXPECTED_PIN
    case _ => false
  }

  /** The complaints that are due, whatever the order they are written in. */
  predicate Due(c: Complaint, p: Project, locked: Entries, declared: map<string, string>) {
    ProjectDue(c, p) || NameDue(c, locked, declared)
  }

  predicate ProjectOk(p: Project) {
    !p.namesTheManager && HasWorkspace(p) && p.ignoresPm && p.pin == Some(EXPECTED_PIN)
  }

  /** The lockfile and package.json agree on the names and on every specifier, and every name has a version. */
  predicate Coherent(locked: Entries, declared: map<string, string>) {
    && locked.Keys == declared.Keys
    && forall n :: n in locked ==>
        && locked[n].specifier == Some(declared[n])
        && locked[n].version.Some? && locked[n].version.value != ""
  }

  lemma NothingDueExactly(p: Project, locked: Entries, declared: map<string, string>)
    ensures (forall c :: !Due(c, p, locked, declared)) <==> ProjectOk(p) && Coherent(locked, declared)
  {
    if forall c :: !Due(c, p, locked, declared) {
      assert !Due(NamesTheManager, p, locked, declared) && !Due(NoWorkspace, p, locked, declared);
      assert !Due(NoPmOnFail, p, locked, declared) && !Due(NoPin, p, locked, declared);
      assert p.pin.Some? ==> !Due(WrongPin(p.pin.value), p, locked, declared);
      forall n ensures n in locked <==> n in declared {
        assert !Due(Missing(n), p, locked, declared) && !Due(Undeclared(n), p, locked, declared);
      }
      forall n | n in locked
        ensures locked[n].specifier == Some(declared[n])
        ensures locked[n].version.Some? && locked[n].version.value != ""
      {
        assert !Due(WrongSpecifier(n, locked[n].specifier), p, locked, declared);
        assert !Due(Unresolved(n), p, locked, declared);
      }
    }
  }

  predicate AboutName(c: Complaint, name: string) {
    (c.Missing? || c.Undeclared? || c.WrongSpecifier? || c.Unresolved?) && c.name == name
  }

  method ValidateName(name: string, locked: Entries, declared: map<string, string>, errors: seq<Complaint>)
    returns (out: seq<Complaint>)
    requires name in locked || name in declared
    ensures errors <= out
    ensures forall c :: c in out[|errors|..] <==> AboutName(c, name) && NameDue(c, locked, declared)
  {
    var added := [];
    if name !in locked {
      added := [Missing(name)];
    } else if name !in declared {
      added := [Undeclared(name)];
    } else {
      if locked[name].specifier != Some(declared[name]) {
        added := added + [WrongSpecifier(name, locked[name].specifier)];
      }
      if locked[name].version.None? || locked[name].version.value == "" {
        added := added + [Unresolved(name)];
      }
    }
    out := errors + added;
    assert out[|errors|..] == added;
  }

  /** `names` is the sorted union of both sides. */
  method ValidateSingleDocument(
      p: Project, lines: seq<string>, declared: map<string, string>, names: seq<string>)
    returns (errors: seq<Complaint>)
    requires forall n :: n in names <==> n in Locked(lines) || n in declared
    ensures forall c :: c in errors <==> Due(c, p, Locked(lines), declared)
    ensures errors == [] <==> ProjectOk(p) && Coherent(Locked(lines), declared)
    ensures errors == [] ==>
      !p.namesTheManager && p.workspace.Some? && p.workspace.value != "" && p.ignoresPm && p.pin == Some("pnpm@12.12.1")
  {
    errors := [];
    if p.namesTheManager {
      errors := errors + [NamesTheManager];
    }
    if !HasWorkspace(p) {
      errors := errors + [NoWorkspace];
    } else if !p.ignoresPm {
      errors := errors + [NoPmOnFail];
    }
    if p.pin.None? {
      errors := errors + [NoPin];
    } else if p.pin.value != EXPECTED_PIN {
      errors := errors + [WrongPin(p.pin.value)];
    }
    var locked := ParseRootImporter(lines);
    for i := 0 to |names|
      invariant forall c :: c in errors <==>
        ProjectDue(c, p) || (NameDue(c, locked, declared) && exists j :: 0 <= j < i && AboutName(c, names[j]))
    {
      ghost var before := errors;
      errors := ValidateName(names[i], locked, declared, errors);
      assert errors == before + errors[|before|..];
    }
    NothingDueExactly(p, locked, declared);
    if errors == [] {
      forall c ensures !Due(c, p, locked, declared) {
        assert c !in errors;
      }
    } else {
      assert errors[0] in errors;
    }
  }
}
