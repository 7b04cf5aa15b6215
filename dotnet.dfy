/** The .NET analyzer: the `*.csproj` and `*.fsproj` files of the project
    directory, then `packages.config`, then `paket.lock`, deduplicated by
    `name:version`. */
module DotNetAnalyzer {
  import opened Wrappers
  import opened Text
  import opened Seqs
  import opened Xml
  import opened Models
  import opened Dedup
  import Detector

  /** `make_dep`: a NuGet package with no license information yet. */
  function MakeDep(name: string, version: string): (d: Dependency)
    ensures d.name == name && d.version == version && d.ecosystem == DotNet
    ensures d == Unlicensed(name, version, DotNet)
  {
    Unlicensed(name, version, DotNet)
  }

  // ---------------------------------------------------------------------
  // Project files and packages.config

  /** The attribute loop of a reference element: each attribute named
      `nameKey` or `versionKey` overwrites the value read so far. */
  method ReadAttributes(attrs: seq<Attribute>, nameKey: string, versionKey: string)
    returns (name: string, version: string)
    requires nameKey != versionKey
    ensures name == LastValue(attrs, nameKey) && version == LastValue(attrs, versionKey)
  {
    name, version := "", "";
    for i := 0 to |attrs|
      invariant name == LastValue(attrs[..i], nameKey) && version == LastValue(attrs[..i], versionKey)
    {
      assert attrs[..i + 1] == attrs[..i] + [attrs[i]];
      if attrs[i].key == nameKey {
        name := attrs[i].value;
      } else if attrs[i].key == versionKey {
        version := attrs[i].value;
      }
    }
    assert attrs[..|attrs|] == attrs;
  }

  /** The element, attribute names of a reference. */
  datatype ReferenceShape = ReferenceShape(tag: string, nameKey: string, versionKey: string)

  /** `<PackageReference Include="…" Version="…">` in SDK-style projects. */
  const PackageReference := ReferenceShape("PackageReference", "Include", "Version")

  /** `<package id="…" version="…">` in `packages.config`. */
  const PackageElement := ReferenceShape("package", "id", "version")

  /** One event: an opening or self-closing reference element with a
      non-empty name becomes a dependency. */
  function ReferenceDep(shape: ReferenceShape, e: Event): (r: Option<Dependency>)
    ensures r.Some? <==> (e.Start? || e.Empty?) && e.name == shape.tag && LastValue(e.attrs, shape.nameKey) != ""
    ensures r.Some? ==> r.value == MakeDep(LastValue(e.attrs, shape.nameKey), LastValue(e.attrs, shape.versionKey))
  {
    match e
    case Start(name, attrs) =>
      if name == shape.tag && LastValue(attrs, shape.nameKey) != "" then
        Some(MakeDep(LastValue(attrs, shape.nameKey), LastValue(attrs, shape.versionKey)))
      else None
    case Empty(name, attrs) =>
      if name == shape.tag && LastValue(attrs, shape.nameKey) != "" then
        Some(MakeDep(LastValue(attrs, shape.nameKey), LastValue(attrs, shape.versionKey)))
      else None
    case _ => None
  }

  /** The dependencies of a document: its references up to the end of input
      or the first read error. */
  function References(shape: ReferenceShape, events: seq<Event>): seq<Dependency> {
    Collect(UntilStop(events), e => ReferenceDep(shape, e))
  }

  /** `parse_project_file` and `parse_packages_config`, which differ only in
      the element and attribute names. */
  method ParseReferences(shape: ReferenceShape, events: seq<Event>) returns (deps: seq<Dependency>)
    requires shape.nameKey != shape.versionKey
    ensures deps == References(shape, events)
  {
    deps := [];
    var i := 0;
    while i < |events|
      invariant 0 <= i <= |events|
      invariant forall k :: 0 <= k < i ==> !Stops(events[k])
      invariant deps == Collect(events[..i], e => ReferenceDep(shape, e))
    {
      if Stops(events[i]) {
        break;
      }
      assert events[..i + 1][..i] == events[..i];
      match events[i] {
        case Start(tag, attrs) =>
          if tag == shape.tag {
            var name, version := ReadAttributes(attrs, shape.nameKey, shape.versionKey);
            if name != [] {
              deps := deps + [MakeDep(name, version)];
            }
          }
        case Empty(tag, attrs) =>
          if tag == shape.tag {
            var name, version := ReadAttributes(attrs, shape.nameKey, shape.versionKey);
            if name != [] {
              deps := deps + [MakeDep(name, version)];
            }
          }
        case _ =>
      }
      i := i + 1;
    }
    UntilStopIsFirst(events, i);
  }

  /** Elements other than the reference element never contribute. */
  lemma OtherElementsAreIgnored(shape: ReferenceShape, e: Event)
    requires !(e.Start? || e.Empty?) || e.name != shape.tag
    ensures ReferenceDep(shape, e) == None
  {
  }

  /** A self-closing reference with both attributes is read as written,
      whatever other attributes (a `targetFramework`, say) it has. */
  lemma ReferenceIsRead(shape: ReferenceShape, name: string, version: string, more: seq<Attribute>)
    requires shape.nameKey != shape.versionKey && name != ""
    requires forall k :: 0 <= k < |more| ==> more[k].key != shape.nameKey && more[k].key != shape.versionKey
    ensures ReferenceDep(shape, Empty(shape.tag, [Attribute(shape.nameKey, name), Attribute(shape.versionKey, version)] + more)) ==
            Some(MakeDep(name, version))
  {
    var first := Attribute(shape.nameKey, name);
    var second := Attribute(shape.versionKey, version);
    assert [first, second] + more == [] + [first] + ([second] + more);
    LastValueOfLast([], shape.nameKey, name, [second] + more);
    assert [first, second] + more == [first] + [second] + more;
    LastValueOfLast([first], shape.versionKey, version, more);
  }

  // ---------------------------------------------------------------------
  // paket.lock

  predicate NotWhitespace(c: char) {
    !IsWhitespace(c)
  }

  predicate NotCloseParen(c: char) {
    c != ')'
  }

  predicate AllIn(s: string, keep: char -> bool) {
    forall i :: 0 <= i < |s| ==> keep(s[i])
  }

  /** After the package name: `\s+\(([^)]+)\)`, giving the version. */
  function VersionInParens(s: string): (r: Option<string>)
    ensures r.Some? ==> r.value != [] && AllIn(r.value, NotCloseParen)
  {
    var g := Span(s, IsWhitespace);
    if g == 0 || g == |s| || s[g] != '(' then None
    else
      var inner := s[g + 1..];
      var v := Span(inner, NotCloseParen);
      if v == 0 || v == |inner| then None else Some(inner[..v])
  }

  /** The pattern `^\s{4}(\S+)\s+\(([^)]+)\)`: four whitespace characters,
      a name, whitespace and a parenthesised version. */
  function PaketEntry(line: string): (r: Option<Dependency>)
    ensures r.Some? ==> |line| >= 4 && AllIn(line[..4], IsWhitespace)
    ensures r.Some? ==> r.value.name != [] && AllIn(r.value.name, NotWhitespace)
    ensures r.Some? ==> r.value == MakeDep(r.value.name, r.value.version)
  {
    if |line| < 4 || !AllIn(line[..4], IsWhitespace) then None
    else
      var rest := line[4..];
      var n := Span(rest, NotWhitespace);
      if n == 0 then None
      else
        match VersionInParens(rest[n..])
        case None => None
        case Some(version) => Some(MakeDep(rest[..n], version))
  }

  lemma VersionInParensOfShape(gap: string, version: string, tail: string)
    requires gap != [] && AllIn(gap, IsWhitespace)
    requires version != [] && AllIn(version, NotCloseParen)
    ensures VersionInParens(gap + ("(" + (version + (")" + tail)))) == Some(version)
  {
    var s := gap + ("(" + (version + (")" + tail)));
    SpanOfPrefix(gap, "(" + (version + (")" + tail)), IsWhitespace);
    assert s[|gap|] == '(';
    var inner := s[|gap| + 1..];
    assert inner == version + (")" + tail);
    SpanOfPrefix(version, ")" + tail, NotCloseParen);
    assert inner[..|version|] == version;
  }

  /** The pattern reads `    Name (version)` as that name and version,
      whatever follows the closing parenthesis. */
  lemma PaketEntryOfShape(indent: string, name: string, gap: string, version: string, tail: string)
    requires |indent| == 4 && AllIn(indent, IsWhitespace)
    requires name != [] && AllIn(name, NotWhitespace)
    requires gap != [] && AllIn(gap, IsWhitespace)
    requires version != [] && AllIn(version, NotCloseParen)
    ensures PaketEntry(indent + (name + (gap + ("(" + (version + (")" + tail)))))) == Some(MakeDep(name, version))
  {
    var after := gap + ("(" + (version + (")" + tail)));
    var line := indent + (name + after);
    assert line[..4] == indent;
    var rest := line[4..];
    assert rest == name + after;
    SpanOfPrefix(name, after, NotWhitespace);
    assert rest[..|name|] == name && rest[|name|..] == after;
    VersionInParensOfShape(gap, version, tail);
  }

  /** An entry line has exactly four leading blanks: a line with fewer, or
      with a fifth, is not an entry. */
  lemma PaketEntryNeedsFourBlanks(line: string)
    ensures PaketEntry(line).Some? ==> |line| > 4 && AllIn(line[..4], IsWhitespace) && !IsWhitespace(line[4])
  {
  }

  /** Whether the loop is inside the NUGET section after `line`: the
      `NUGET` header opens it, any other non-blank line that does not start
      with a space closes it. */
  function NextInNuget(inNuget: bool, line: string): (r: bool)
    ensures line == [] || line[0] == ' ' ==> r == inNuget
    ensures r != inNuget ==> (r <==> TrimEnd(line) == "NUGET")
  {
    if TrimEnd(line) == "NUGET" then true
    else if line != [] && line[0] != ' ' then false
    else inNuget
  }

  /** The dependency `line` yields: only non-header lines inside the
      section can. */
  function PaketLineDep(inNuget: bool, line: string): (r: Option<Dependency>)
    ensures r.Some? ==> NextInNuget(inNuget, line) && TrimEnd(line) != "NUGET" && r == PaketEntry(line)
  {
    if TrimEnd(line) == "NUGET" then None
    else if NextInNuget(inNuget, line) then PaketEntry(line)
    else None
  }

  function OptionToSeq<T>(o: Option<T>): seq<T> {
    if o.Some? then [o.value] else []
  }

  /** The loop over the lines of `paket.lock`. */
  function PaketRun(inNuget: bool, lines: seq<string>): (deps: seq<Dependency>)
    ensures |deps| <= |lines|
    decreases |lines|
  {
    if lines == [] then []
    else OptionToSeq(PaketLineDep(inNuget, lines[0])) + PaketRun(NextInNuget(inNuget, lines[0]), lines[1..])
  }

  /** `parse_paket_lock` over the file's lines. */
  method ParsePaketLock(lines: seq<string>) returns (deps: seq<Dependency>)
    ensures deps == PaketRun(false, lines)
  {
    deps := [];
    var inNuget := false;
    for i := 0 to |lines|
      invariant deps + PaketRun(inNuget, lines[i..]) == PaketRun(false, lines)
    {
      var line := lines[i];
      assert lines[i..][1..] == lines[i + 1..];
      ghost var before, found := inNuget, deps;
      if TrimEnd(line) == "NUGET" {
        inNuget := true;
      } else {
        if line != [] && line[0] != ' ' {
          inNuget := false;
        }
        if inNuget {
          var entry := PaketEntry(line);
          if entry.Some? {
            deps := deps + [entry.value];
          }
        }
      }
      assert inNuget == NextInNuget(before, line);
      assert deps == found + OptionToSeq(PaketLineDep(before, line));
    }
  }

  /** A header line: not blank, not indented, not `NUGET`. */
  predicate IsOtherHeader(line: string) {
    line != [] && line[0] != ' ' && TrimEnd(line) != "NUGET"
  }

  /** Before the NUGET header, and after any other section header, nothing
      is collected until the next NUGET header. */
  lemma {:induction false} NothingOutsideNuget(lines: seq<string>)
    requires forall k :: 0 <= k < |lines| ==> TrimEnd(lines[k]) != "NUGET"
    ensures PaketRun(false, lines) == []
  {
    if lines != [] {
      assert !NextInNuget(false, lines[0]);
      NothingOutsideNuget(lines[1..]);
    }
  }

  /** Another section header ends the NUGET section. */
  lemma OtherHeaderEndsNuget(inNuget: bool, header: string, rest: seq<string>)
    requires IsOtherHeader(header)
    ensures PaketRun(inNuget, [header] + rest) == PaketRun(false, rest)
  {
    assert ([header] + rest)[1..] == rest;
  }

  /** An entry line inside the NUGET section is collected, and the section
      goes on. */
  lemma EntryInsideNuget(line: string, rest: seq<string>)
    requires line != [] && line[0] == ' '
    requires PaketEntry(line).Some?
    ensures PaketRun(true, [line] + rest) == [PaketEntry(line).value] + PaketRun(true, rest)
  {
    assert ([line] + rest)[1..] == rest;
    assert TrimEnd(line) == [] || TrimEnd(line)[0] == ' ';
  }

  // ---------------------------------------------------------------------
  // analyze

  /** A directory entry: its file name and, when it can be read and is a
      file, its events. */
  datatype DirEntry = DirEntry(fileName: string, events: Option<seq<Event>>)

  /** The project directory as the analyzer reads it: its entries in
      directory order (empty when it cannot be listed) and the two fixed
      files (None when absent or unreadable). */
  datatype Manifests = Manifests(
    entries: seq<DirEntry>,
    packagesConfig: Option<seq<Event>>,
    paketLock: Option<seq<string>>)

  function ProjectFileDeps(e: DirEntry): seq<Dependency> {
    if Detector.IsProjectFile(e.fileName) && e.events.Some? then References(PackageReference, e.events.value) else []
  }

  /** One source per directory entry, in directory order. */
  function ProjectSources(entries: seq<DirEntry>): (r: seq<seq<Dependency>>)
    ensures |r| == |entries|
    ensures forall k :: 0 <= k < |r| ==> r[k] == ProjectFileDeps(entries[k])
  {
    if entries == [] then []
    else ProjectSources(entries[..|entries| - 1]) + [ProjectFileDeps(entries[|entries| - 1])]
  }

  function Sources(m: Manifests): seq<seq<Dependency>> {
    ProjectSources(m.entries) +
    [ match m.packagesConfig case None => [] case Some(events) => References(PackageElement, events),
      match m.paketLock case None => [] case Some(lines) => PaketRun(false, lines) ]
  }

  /** `DotNetAnalyzer::analyze`: every project file in directory order,
      then `packages.config`, then `paket.lock`, merged by `name:version`. */
  method Analyze(m: Manifests) returns (deps: seq<Dependency>)
    ensures deps == MergeAll(Sources(m), NameColonVersion)
  {
    var sources: seq<seq<Dependency>> := [];
    for i := 0 to |m.entries|
      invariant sources == ProjectSources(m.entries[..i])
    {
      assert m.entries[..i + 1][..i] == m.entries[..i];
      var entry := m.entries[i];
      var parsed: seq<Dependency> := [];
      if Detector.IsProjectFile(entry.fileName) && entry.events.Some? {
        parsed := ParseReferences(PackageReference, entry.events.value);
      }
      sources := sources + [parsed];
    }
    assert m.entries[..|m.entries|] == m.entries;
    var config: seq<Dependency> := [];
    if m.packagesConfig.Some? {
      config := ParseReferences(PackageElement, m.packagesConfig.value);
    }
    var paket: seq<Dependency> := [];
    if m.paketLock.Some? {
      paket := ParsePaketLock(m.paketLock.value);
    }
    deps := MergeInOrder(sources + [config, paket], NameColonVersion);
  }

  /** No two dependencies of the result share `name:version`. */
  lemma MergedKeysAreDistinct(m: Manifests)
    ensures DistinctKeys(MergeAll(Sources(m), NameColonVersion), NameColonVersion)
  {
    MergeAllIsDistinct(Sources(m), NameColonVersion);
  }
}
