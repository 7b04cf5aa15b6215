/** The .NET analyzer's unit tests, as lemmas about the model. */
module DotNetExamples {
  import opened Wrappers
  import opened Text
  import opened Seqs
  import opened Xml
  import opened Models
  import opened DotNetAnalyzer

  /** Collecting six elements of which only the third and fourth yield. */
  lemma ThirdAndFourth<T, U>(a: T, b: T, c: T, d: T, e: T, g: T, f: T -> Option<U>, x: U, y: U)
    requires f(a) == None && f(b) == None && f(c) == Some(x) && f(d) == Some(y) && f(e) == None && f(g) == None
    ensures Collect([a, b, c, d, e, g], f) == [x, y]
  {
    CollectAppend([a, b], [c, d], f);
    CollectAppend([a, b] + [c, d], [e, g], f);
    assert [a, b][..1] == [a] && [a][..0] == [];
    assert [c, d][..1] == [c] && [c][..0] == [];
    assert [e, g][..1] == [e] && [e][..0] == [];
    assert Collect([a, b], f) == [];
    assert Collect([c, d], f) == [x, y];
    assert Collect([e, g], f) == [];
    assert [a, b] + [c, d] + [e, g] == [a, b, c, d, e, g];
  }

  /** Collecting four elements of which only the second and third yield. */
  lemma SecondAndThird<T, U>(a: T, b: T, c: T, d: T, f: T -> Option<U>, x: U, y: U)
    requires f(a) == None && f(b) == Some(x) && f(c) == Some(y) && f(d) == None
    ensures Collect([a, b, c, d], f) == [x, y]
  {
    assert [a, b, c, d][..3] == [a, b, c] && [a, b, c][..2] == [a, b];
    assert [a, b][..1] == [a] && [a][..0] == [];
    assert Collect([a], f) == [];
    assert Collect([a, b], f) == [x];
    assert Collect([a, b, c], f) == [x, y];
  }

  function Ref(name: string, version: string): Event {
    Empty("PackageReference", [Attribute("Include", name), Attribute("Version", version)])
  }

  /** The test's project file: two `<PackageReference>` elements inside an
      `<ItemGroup>`, read in document order. */
  lemma ProjectFileTest(sdk: string, n1: string, v1: string, n2: string, v2: string)
    requires sdk == "Microsoft.NET.Sdk"
    requires n1 == "Newtonsoft.Json" && v1 == "13.0.1" && n2 == "Serilog" && v2 == "2.12.0"
    ensures References(PackageReference,
                       [Start("Project", [Attribute("Sdk", sdk)]), Start("ItemGroup", []),
                        Ref(n1, v1), Ref(n2, v2), End("ItemGroup"), End("Project"), Eof]) ==
            [MakeDep(n1, v1), MakeDep(n2, v2)]
  {
    var body := [Start("Project", [Attribute("Sdk", sdk)]), Start("ItemGroup", []),
                 Ref(n1, v1), Ref(n2, v2), End("ItemGroup"), End("Project")];
    assert body + [Eof] == [Start("Project", [Attribute("Sdk", sdk)]), Start("ItemGroup", []),
                            Ref(n1, v1), Ref(n2, v2), End("ItemGroup"), End("Project"), Eof];
    UntilStopAppend(body, [Eof]);
    ReferenceIsRead(PackageReference, n1, v1, []);
    ReferenceIsRead(PackageReference, n2, v2, []);
    assert [Attribute("Include", n1), Attribute("Version", v1)] + [] == [Attribute("Include", n1), Attribute("Version", v1)];
    assert [Attribute("Include", n2), Attribute("Version", v2)] + [] == [Attribute("Include", n2), Attribute("Version", v2)];
    OtherElementsAreIgnored(PackageReference, body[0]);
    OtherElementsAreIgnored(PackageReference, body[1]);
    ThirdAndFourth(body[0], body[1], body[2], body[3], body[4], body[5], e => ReferenceDep(PackageReference, e),
                   MakeDep(n1, v1), MakeDep(n2, v2));
  }

  function Package(id: string, version: string, framework: string): Event {
    Empty("package", [Attribute("id", id), Attribute("version", version), Attribute("targetFramework", framework)])
  }

  lemma PackageIsRead(id: string, version: string, framework: string)
    requires id != ""
    ensures ReferenceDep(PackageElement, Package(id, version, framework)) == Some(MakeDep(id, version))
  {
    var more := [Attribute("targetFramework", framework)];
    assert more[0].key != "id" && more[0].key != "version";
    ReferenceIsRead(PackageElement, id, version, more);
    assert [Attribute("id", id), Attribute("version", version)] + more == Package(id, version, framework).attrs;
  }

  /** The test's `packages.config`: the declaration, `<packages>` and two
      `<package>` elements whose `targetFramework` is ignored. */
  lemma PackagesConfigTest(n1: string, v1: string, n2: string, v2: string, fw: string)
    requires n1 == "Newtonsoft.Json" && v1 == "13.0.1" && n2 == "NUnit" && v2 == "3.13.3" && fw == "net452"
    ensures var deps := References(PackageElement, [Other, Start("packages", []), Package(n1, v1, fw), Package(n2, v2, fw), End("packages"), Eof]);
            |deps| == 2 && deps[0].name == "Newtonsoft.Json" && deps[0].version == "13.0.1"
  {
    var body := [Other, Start("packages", []), Package(n1, v1, fw), Package(n2, v2, fw), End("packages")];
    assert body + [Eof] == [Other, Start("packages", []), Package(n1, v1, fw), Package(n2, v2, fw), End("packages"), Eof];
    UntilStopAppend(body, [Eof]);
    PackageIsRead(n1, v1, fw);
    PackageIsRead(n2, v2, fw);
    OtherElementsAreIgnored(PackageElement, body[0]);
    OtherElementsAreIgnored(PackageElement, body[1]);
    assert [Other, Start("packages", []), Package(n1, v1, fw), Package(n2, v2, fw), End("packages")]
        == [Other] + [Start("packages", []), Package(n1, v1, fw), Package(n2, v2, fw), End("packages")];
    var f := e => ReferenceDep(PackageElement, e);
    assert f(body[0]) == None;
    CollectAppend([body[0]], body[1..], f);
    assert [body[0]][..0] == [];
    SecondAndThird(body[1], body[2], body[3], body[4], f, MakeDep(n1, v1), MakeDep(n2, v2));
    assert body[1..] == [body[1], body[2], body[3], body[4]];
  }

  /** One step of the `paket.lock` loop. */
  lemma PaketCons(inNuget: bool, line: string, rest: seq<string>)
    ensures PaketRun(inNuget, [line] + rest) ==
            OptionToSeq(PaketLineDep(inNuget, line)) + PaketRun(NextInNuget(inNuget, line), rest)
  {
    assert ([line] + rest)[1..] == rest;
  }

  /** An indented line that is not an entry changes nothing. */
  lemma IndentedNonEntry(inNuget: bool, line: string, rest: seq<string>)
    requires (line == [] || line[0] == ' ') && PaketEntry(line).None?
    ensures PaketRun(inNuget, [line] + rest) == PaketRun(inNuget, rest)
  {
    PaketCons(inNuget, line, rest);
    assert TrimEnd(line) == [] || TrimEnd(line)[0] == ' ';
  }

  lemma EntryLine(name: string, version: string, line: string)
    requires name != [] && AllIn(name, NotWhitespace) && version != [] && AllIn(version, NotCloseParen)
    requires line == "    " + (name + (" " + ("(" + (version + (")" + [])))))
    ensures line != [] && line[0] == ' ' && PaketEntry(line) == Some(MakeDep(name, version))
  {
    PaketEntryOfShape("    ", name, " ", version, []);
  }

  /** A section other than NUGET, whose lines are blank or indented,
      yields nothing. */
  lemma OtherSection(inNuget: bool, header: string, rest: seq<string>)
    requires IsOtherHeader(header)
    requires forall k :: 0 <= k < |rest| ==> rest[k] == [] || rest[k][0] == ' '
    ensures PaketRun(inNuget, [header] + rest) == []
  {
    forall k | 0 <= k < |rest| ensures TrimEnd(rest[k]) != "NUGET" {
      assert TrimEnd(rest[k]) == [] || TrimEnd(rest[k])[0] == ' ';
    }
    OtherHeaderEndsNuget(inNuget, header, rest);
    NothingOutsideNuget(rest);
  }

  /** An entry line as the lockfile writes it: four blanks, the name, a
      blank and the parenthesised version. */
  predicate IsEntryLine(line: string, name: string, version: string) {
    name != [] && AllIn(name, NotWhitespace) && version != [] && AllIn(version, NotCloseParen) &&
    line == "    " + (name + (" " + ("(" + (version + (")" + [])))))
  }

  /** Two entries inside the NUGET section are both collected. */
  lemma TwoEntries(e1: string, d1: Dependency, e2: string, d2: Dependency, rest: seq<string>)
    requires e1 != [] && e1[0] == ' ' && PaketEntry(e1) == Some(d1)
    requires e2 != [] && e2[0] == ' ' && PaketEntry(e2) == Some(d2)
    ensures PaketRun(true, [e1] + ([e2] + rest)) == [d1] + ([d2] + PaketRun(true, rest))
  {
    EntryInsideNuget(e2, rest);
    EntryInsideNuget(e1, [e2] + rest);
  }

  /** A NUGET section holding a `remote:` line, two entries and a blank
      line. */
  lemma NugetSection(remote: string, e1: string, d1: Dependency, e2: string, d2: Dependency, tail: seq<string>)
    requires remote != [] && remote[0] == ' ' && PaketEntry(remote).None?
    requires e1 != [] && e1[0] == ' ' && PaketEntry(e1) == Some(d1)
    requires e2 != [] && e2[0] == ' ' && PaketEntry(e2) == Some(d2)
    ensures PaketRun(true, [remote] + ([e1] + ([e2] + ([""] + tail)))) == [d1] + ([d2] + PaketRun(true, tail))
  {
    IndentedNonEntry(true, "", tail);
    TwoEntries(e1, d1, e2, d2, [""] + tail);
    IndentedNonEntry(true, remote, [e1] + ([e2] + ([""] + tail)));
  }

  lemma Nest<T>(a: T, b: T, c: T, d: T, e: T, f: T, g: T, h: T, rest: seq<T>)
    ensures [a, b, c, d, e, f, g, h] + rest == [a] + ([b] + ([c] + ([d] + ([e] + ([f] + ([g] + ([h] + rest)))))))
  {
  }

  lemma AppendTwo<T>(a: T, b: T, c: T, d: T, e: T, f: T, g: T, h: T, i: T, j: T)
    ensures [a, b, c, d, e, f, g, h] + [i, j] == [a, b, c, d, e, f, g, h, i, j]
  {
  }

  lemma Pair<T>(a: T, b: T)
    ensures [a] + ([b] + []) == [a, b]
  {
  }

  /** A header, a blank line and `NUGET` open the section. */
  lemma OpenNuget(header: string, rest: seq<string>)
    requires IsOtherHeader(header)
    ensures PaketRun(false, [header] + ([""] + (["NUGET"] + rest))) == PaketRun(true, rest)
  {
    PaketCons(false, "NUGET", rest);
    PaketCons(false, "", ["NUGET"] + rest);
    PaketCons(false, header, [""] + (["NUGET"] + rest));
  }

  /** The layout of the test's `paket.lock`: a REFERENCES header and a blank
      line, the NUGET section, then the GITHUB section. */
  lemma PaketLockLayout(references: string, remote: string, e1: string, n1: string, v1: string,
                        e2: string, n2: string, v2: string, github: string, others: seq<string>)
    requires IsOtherHeader(references) && IsOtherHeader(github)
    requires |remote| >= 4 && remote[0] == ' ' && !IsWhitespace(remote[2])
    requires IsEntryLine(e1, n1, v1) && IsEntryLine(e2, n2, v2)
    requires forall k :: 0 <= k < |others| ==> others[k] == [] || others[k][0] == ' '
    ensures PaketRun(false, [references, "", "NUGET", remote, e1, e2, "", github] + others) ==
            [MakeDep(n1, v1), MakeDep(n2, v2)]
  {
    EntryLine(n1, v1, e1);
    EntryLine(n2, v2, e2);
    RemoteIsNoEntry(remote);
    NugetThenGithub(remote, e1, MakeDep(n1, v1), e2, MakeDep(n2, v2), github, others);
    OpenNuget(references, [remote] + ([e1] + ([e2] + ([""] + ([github] + others)))));
    Nest(references, "", "NUGET", remote, e1, e2, "", github, others);
  }

  /** The part of the test's `paket.lock` after the NUGET header. */
  lemma NugetThenGithub(remote: string, e1: string, d1: Dependency, e2: string, d2: Dependency,
                        github: string, others: seq<string>)
    requires IsOtherHeader(github)
    requires remote != [] && remote[0] == ' ' && PaketEntry(remote).None?
    requires e1 != [] && e1[0] == ' ' && PaketEntry(e1) == Some(d1)
    requires e2 != [] && e2[0] == ' ' && PaketEntry(e2) == Some(d2)
    requires forall k :: 0 <= k < |others| ==> others[k] == [] || others[k][0] == ' '
    ensures PaketRun(true, [remote] + ([e1] + ([e2] + ([""] + ([github] + others))))) == [d1, d2]
  {
    OtherSection(true, github, others);
    NugetSection(remote, e1, d1, e2, d2, [github] + others);
    Pair(d1, d2);
  }

  /** A line indented by two blanks only is no entry. */
  lemma RemoteIsNoEntry(remote: string)
    requires |remote| >= 4 && remote[0] == ' ' && !IsWhitespace(remote[2])
    ensures PaketEntry(remote).None?
  {
    assert remote[..4][2] == remote[2];
  }

  /** The lines of the test's `paket.lock` have the shapes the layout
      lemma asks for. */
  lemma TestRemote(remote: string, url: string)
    requires remote == "  remote: " + url
    ensures |remote| >= 4 && remote[0] == ' ' && !IsWhitespace(remote[2])
  {
    assert remote[2] == 'r';
  }

  lemma EntryShape(line: string, name: string, version: string)
    requires name != [] && AllIn(name, NotWhitespace) && version != [] && AllIn(version, NotCloseParen)
    requires line == "    " + name + " (" + version + ")"
    ensures IsEntryLine(line, name, version)
  {
    assert "    " + name + " (" + version + ")" == "    " + (name + (" " + ("(" + (version + (")" + [])))));
  }

  /** Visible ASCII characters are not whitespace. */
  lemma VisibleHasNoWhitespace(s: string)
    requires forall i :: 0 <= i < |s| ==> '!' <= s[i] <= '~'
    ensures AllIn(s, NotWhitespace)
  {
  }

  lemma TestEntry(line: string, name: string, version: string)
    requires name != [] && forall i :: 0 <= i < |name| ==> '!' <= name[i] <= '~'
    requires version != [] && forall i :: 0 <= i < |version| ==> '0' <= version[i] <= '9' || version[i] == '.'
    requires line == "    " + name + " (" + version + ")"
    ensures IsEntryLine(line, name, version)
  {
    VisibleHasNoWhitespace(name);
    EntryShape(line, name, version);
  }

  lemma TestNewtonsoft(e1: string, name: string, version: string)
    requires name == "Newtonsoft.Json" && version == "13.0.1" && e1 == "    " + name + " (" + version + ")"
    ensures IsEntryLine(e1, name, version)
  {
    TestEntry(e1, name, version);
  }

  lemma TestSerilog(e2: string, name: string, version: string)
    requires name == "Serilog" && version == "2.12.0" && e2 == "    " + name + " (" + version + ")"
    ensures IsEntryLine(e2, name, version)
  {
    TestEntry(e2, name, version);
  }

  lemma TestGithub(remote2: string, file: string)
    requires remote2 == "  remote: some/repo" && file == "    file.fs"
    ensures IsOtherHeader("REFERENCES") && IsOtherHeader("GITHUB")
    ensures forall k :: 0 <= k < |[remote2, file]| ==> [remote2, file][k] == [] || [remote2, file][k][0] == ' '
  {
  }

  /** The test's `paket.lock`: the two NUGET entries are collected; the
      `remote:` line, the blank line and the GITHUB section are not. */
  lemma PaketLockTest(url: string, remote: string, n1: string, v1: string, e1: string, n2: string, v2: string, e2: string,
                      remote2: string, file: string)
    requires url == "https://api.nuget.org/v3/index.json" && remote == "  remote: " + url
    requires n1 == "Newtonsoft.Json" && v1 == "13.0.1" && e1 == "    " + n1 + " (" + v1 + ")"
    requires n2 == "Serilog" && v2 == "2.12.0" && e2 == "    " + n2 + " (" + v2 + ")"
    requires remote2 == "  remote: some/repo" && file == "    file.fs"
    ensures PaketRun(false, ["REFERENCES", "", "NUGET", remote, e1, e2, "", "GITHUB", remote2, file]) ==
            [MakeDep("Newtonsoft.Json", "13.0.1"), MakeDep("Serilog", "2.12.0")]
  {
    TestRemote(remote, url);
    TestNewtonsoft(e1, n1, v1);
    TestSerilog(e2, n2, v2);
    TestGithub(remote2, file);
    PaketLockLayout("REFERENCES", remote, e1, n1, v1, e2, n2, v2, "GITHUB", [remote2, file]);
    AppendTwo("REFERENCES", "", "NUGET", remote, e1, e2, "", "GITHUB", remote2, file);
  }
}
