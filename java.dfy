/** The Java analyzer: `pom.xml`, then `build.gradle`, then
    `build.gradle.kts`, then `gradle.lockfile`, deduplicated by
    `name:version`. */
module JavaAnalyzer {
  import opened Wrappers
  import opened Text
  import opened Seqs
  import opened Xml
  import opened Models
  import opened Dedup

  /** `make_dep`: Maven coordinates `group:artifact` as the name, or the
      artifact alone when there is no group. */
  function MakeDep(group: string, artifact: string, version: string): (d: Dependency)
    ensures group == [] ==> d.name == artifact
    ensures group != [] ==> d.name == group + ":" + artifact
    ensures d == Unlicensed(d.name, version, Java)
  {
    var name := if group == [] then artifact else group + ":" + artifact;
    Unlicensed(name, version, Java)
  }

  /** A dependency as `make_dep` builds it from a non-empty artifact. */
  predicate IsJavaDep(d: Dependency) {
    d.name != [] && d == Unlicensed(d.name, d.version, Java)
  }

  lemma MakeDepIsJavaDep(group: string, artifact: string, version: string)
    requires artifact != []
    ensures IsJavaDep(MakeDep(group, artifact, version))
  {
  }

  // ---------------------------------------------------------------------
  // pom.xml

  /** The variables of `parse_pom_xml`'s event loop. */
  datatype PomState = PomState(
    depth: nat,
    inDependencies: bool,
    dependenciesDepth: nat,
    inDependency: bool,
    currentTag: string,
    groupId: string,
    artifactId: string,
    version: string,
    deps: seq<Dependency>)

  const PomStart: PomState := PomState(0, false, 0, false, "", "", "", "", [])

  /** The element names the loop tells apart. */
  datatype Tag = DependenciesTag | DependencyTag | GroupIdTag | ArtifactIdTag | VersionTag | OtherTag

  function TagOf(name: string): (t: Tag)
    ensures t == DependenciesTag <==> name == "dependencies"
    ensures t == DependencyTag <==> name == "dependency"
    ensures t == GroupIdTag <==> name == "groupId"
    ensures t == ArtifactIdTag <==> name == "artifactId"
    ensures t == VersionTag <==> name == "version"
  {
    if name == "dependencies" then DependenciesTag
    else if name == "dependency" then DependencyTag
    else if name == "groupId" then GroupIdTag
    else if name == "artifactId" then ArtifactIdTag
    else if name == "version" then VersionTag
    else OtherTag
  }

  /** A text node inside a dependency goes to the field its element names. */
  function AssignField(s: PomState, text: string): (s': PomState)
    ensures s'.currentTag == s.currentTag && s'.deps == s.deps && s'.depth == s.depth
    ensures s'.inDependency == s.inDependency && s'.inDependencies == s.inDependencies
  {
    match TagOf(s.currentTag)
    case GroupIdTag => s.(groupId := text)
    case ArtifactIdTag => s.(artifactId := text)
    case VersionTag => s.(version := text)
    case _ => s
  }

  /** One event of the loop (end of input and errors stop it). */
  function PomStep(s: PomState, e: Event): (s': PomState)
    ensures s.deps <= s'.deps && |s'.deps| <= |s.deps| + 1
  {
    match e
    case Start(name, _) =>
      var depth := s.depth + 1;
      var s1 := s.(depth := depth, currentTag := name);
      var tag := TagOf(name);
      if tag == DependenciesTag && !s.inDependency then s1.(inDependencies := true, dependenciesDepth := depth)
      else if tag == DependencyTag && s.inDependencies then
        s1.(inDependency := true, groupId := "", artifactId := "", version := "")
      else s1
    case End(name) =>
      var tag := TagOf(name);
      var s1 :=
        if tag == DependencyTag && s.inDependency then
          var deps := if s.artifactId != [] then s.deps + [MakeDep(s.groupId, s.artifactId, s.version)] else s.deps;
          s.(deps := deps, inDependency := false)
        else if tag == DependenciesTag && s.depth == s.dependenciesDepth then s.(inDependencies := false)
        else s;
      s1.(depth := if s1.depth == 0 then 0 else s1.depth - 1, currentTag := "")
    case Text(content) =>
      if s.inDependency then AssignField(s, content.GetOr("")) else s
    case _ => s
  }

  /** The loop over the event stream, up to the end of input or the first
      read error. */
  function PomRun(s: PomState, events: seq<Event>): (s': PomState)
    ensures s.deps <= s'.deps && |s'.deps| <= |s.deps| + |events|
    decreases |events|
  {
    if events == [] || Stops(events[0]) then s else PomRun(PomStep(s, events[0]), events[1..])
  }

  /** `parse_pom_xml` over the reader's events. */
  method ParsePom(events: seq<Event>) returns (deps: seq<Dependency>)
    ensures deps == PomRun(PomStart, events).deps
  {
    var depth: nat := 0;
    var inDependencies := false;
    var dependenciesDepth: nat := 0;
    var inDependency := false;
    var currentTag := "";
    var groupId := "";
    var artifactId := "";
    var version := "";
    deps := [];
    var i := 0;
    while i < |events|
      invariant 0 <= i <= |events|
      invariant PomRun(PomState(depth, inDependencies, dependenciesDepth, inDependency, currentTag,
                                groupId, artifactId, version, deps), events[i..]) == PomRun(PomStart, events)
    {
      ghost var before := PomState(depth, inDependencies, dependenciesDepth, inDependency, currentTag,
                                   groupId, artifactId, version, deps);
      assert events[i..][1..] == events[i + 1..];
      match events[i] {
        case Start(name, _) =>
          depth := depth + 1;
          currentTag := name;
          if name == "dependencies" && !inDependency {
            inDependencies := true;
            dependenciesDepth := depth;
          } else if name == "dependency" && inDependencies {
            inDependency := true;
            groupId := "";
            artifactId := "";
            version := "";
          }
        case End(name) =>
          if name == "dependency" && inDependency {
            if artifactId != [] {
              deps := deps + [MakeDep(groupId, artifactId, version)];
            }
            inDependency := false;
          } else if name == "dependencies" && depth == dependenciesDepth {
            inDependencies := false;
          }
          depth := if depth == 0 then 0 else depth - 1;
          currentTag := "";
        case Text(content) =>
          if inDependency {
            var text := content.GetOr("");
            if currentTag == "groupId" {
              groupId := text;
            } else if currentTag == "artifactId" {
              artifactId := text;
            } else if currentTag == "version" {
              version := text;
            }
          }
        case Eof =>
          break;
        case Fail =>
          break;
        case Empty(_, _) =>
        case Other =>
      }
      assert PomState(depth, inDependencies, dependenciesDepth, inDependency, currentTag,
                      groupId, artifactId, version, deps) == PomStep(before, events[i]);
      i := i + 1;
    }
  }

  /** Running over two stretches is running over the first, then the second. */
  lemma {:induction false} PomRunAppend(s: PomState, xs: seq<Event>, ys: seq<Event>)
    requires forall k :: 0 <= k < |xs| ==> !Stops(xs[k])
    ensures PomRun(s, xs + ys) == PomRun(PomRun(s, xs), ys)
    decreases |xs|
  {
    if xs == [] {
      assert xs + ys == ys;
    } else {
      assert (xs + ys)[0] == xs[0];
      assert (xs + ys)[1..] == xs[1..] + ys;
      PomRunAppend(PomStep(s, xs[0]), xs[1..], ys);
    }
  }

  /** Every dependency the loop emits has a non-empty artifact, no license,
      risk Unknown, verdict Warn and source Unknown. */
  lemma {:induction false} PomRunEmitsJavaDeps(s: PomState, events: seq<Event>)
    requires forall k :: 0 <= k < |s.deps| ==> IsJavaDep(s.deps[k])
    ensures forall k :: 0 <= k < |PomRun(s, events).deps| ==> IsJavaDep(PomRun(s, events).deps[k])
    decreases |events|
  {
    if events != [] && !Stops(events[0]) {
      var s' := PomStep(s, events[0]);
      if events[0].End? && events[0].name == "dependency" && s.inDependency && s.artifactId != [] {
        MakeDepIsJavaDep(s.groupId, s.artifactId, s.version);
        assert s'.deps == s.deps + [MakeDep(s.groupId, s.artifactId, s.version)];
      }
      PomRunEmitsJavaDeps(s', events[1..]);
    }
  }

  /** Opening a `<dependency>` inside `<dependencies>` starts it empty. */
  lemma DependencyOpensEmpty(s: PomState, attrs: seq<Attribute>)
    requires s.inDependencies
    ensures var s' := PomStep(s, Start("dependency", attrs));
            s'.inDependency && s'.groupId == "" && s'.artifactId == "" && s'.version == ""
  {
  }

  /** `</dependencies>` closes the region only at the depth it opened at. */
  lemma DependenciesCloseAtTheirDepth(s: PomState)
    ensures PomStep(s, End("dependencies")).inDependencies <==> s.inDependencies && s.depth != s.dependenciesDepth
  {
  }

  /** An end tag at depth 0 leaves the depth at 0. */
  lemma DepthSaturates(s: PomState, name: string)
    requires s.depth == 0
    ensures PomStep(s, End(name)).depth == 0
  {
  }

  /** Text outside a dependency changes nothing. */
  lemma TextOutsideDependencyIsIgnored(s: PomState, content: Option<string>)
    requires !s.inDependency
    ensures PomStep(s, Text(content)) == s
  {
  }

  /** `<tag>text</tag>`. */
  function Element(tag: string, text: string): seq<Event> {
    [Start(tag, []), Text(Some(text)), End(tag)]
  }

  /** A `<dependency>` with its three coordinates. */
  function DependencyElement(group: string, artifact: string, version: string): seq<Event> {
    [Start("dependency", [])] + Element("groupId", group) + Element("artifactId", artifact)
      + Element("version", version) + [End("dependency")]
  }

  /** The state after a `<dependency>` element inside `<dependencies>`. */
  function AfterDependency(s: PomState, group: string, artifact: string, version: string): PomState {
    var deps := if artifact != [] then s.deps + [MakeDep(group, artifact, version)] else s.deps;
    s.(inDependency := false, currentTag := "", groupId := group, artifactId := artifact, version := version, deps := deps)
  }

  lemma ElementRun(s: PomState, tag: string, text: string, rest: seq<Event>)
    requires s.inDependency && TagOf(tag) in {GroupIdTag, ArtifactIdTag, VersionTag}
    ensures PomRun(s, Element(tag, text) + rest) == PomRun(AssignField(s.(currentTag := tag), text).(currentTag := ""), rest)
  {
    var e := Element(tag, text) + rest;
    var s1 := PomStep(s, e[0]);
    assert s1 == s.(depth := s.depth + 1, currentTag := tag);
    var s2 := PomStep(s1, e[1]);
    assert s2 == AssignField(s1, text);
    var s3 := PomStep(s2, e[2]);
    assert s3 == AssignField(s.(currentTag := tag), text).(currentTag := "");
    assert e[1..][1..][1..] == rest;
    assert PomRun(s, e) == PomRun(s1, e[1..]);
    assert PomRun(s1, e[1..]) == PomRun(s2, e[1..][1..]);
    assert PomRun(s2, e[1..][1..]) == PomRun(s3, rest);
  }

  lemma OpenRun(s: PomState, rest: seq<Event>)
    requires s.inDependencies
    ensures PomRun(s, [Start("dependency", [])] + rest) ==
            PomRun(s.(depth := s.depth + 1, currentTag := "dependency", inDependency := true,
                      groupId := "", artifactId := "", version := ""), rest)
  {
    var e := [Start("dependency", [])] + rest;
    assert e[0] == Start("dependency", []) && e[1..] == rest;
    assert PomStep(s, e[0]) == s.(depth := s.depth + 1, currentTag := "dependency", inDependency := true,
                                  groupId := "", artifactId := "", version := "");
  }

  lemma CloseRun(s: PomState)
    requires s.inDependency
    ensures PomRun(s, [End("dependency")]) ==
            s.(deps := if s.artifactId != [] then s.deps + [MakeDep(s.groupId, s.artifactId, s.version)] else s.deps,
               inDependency := false, depth := if s.depth == 0 then 0 else s.depth - 1, currentTag := "")
  {
    assert [End("dependency")][1..] == [];
  }

  /** A `<dependency>` element inside `<dependencies>` emits its coordinates
      exactly when its artifact is non-empty, whatever came before it. */
  lemma DependencyElementRun(s: PomState, group: string, artifact: string, version: string)
    requires s.inDependencies && !s.inDependency
    ensures PomRun(s, DependencyElement(group, artifact, version)) == AfterDependency(s, group, artifact, version)
  {
    var close := [End("dependency")];
    var v := Element("version", version) + close;
    var a := Element("artifactId", artifact) + v;
    var g := Element("groupId", group) + a;
    assert DependencyElement(group, artifact, version) == [Start("dependency", [])] + g;
    OpenRun(s, g);
    var s1 := s.(depth := s.depth + 1, currentTag := "dependency", inDependency := true,
                 groupId := "", artifactId := "", version := "");
    ElementRun(s1, "groupId", group, a);
    var s2 := s1.(groupId := group, currentTag := "");
    ElementRun(s2, "artifactId", artifact, v);
    var s3 := s2.(artifactId := artifact);
    ElementRun(s3, "version", version, close);
    var s4 := s3.(version := version);
    CloseRun(s4);
  }

  predicate OpensDependencies(e: Event) {
    e.Start? && e.name == "dependencies"
  }

  /** Until a `<dependencies>` element opens, nothing is emitted: a
      `<dependency>` elsewhere in the POM (under `<dependencyManagement>`'s
      parent, say, or a plugin) is ignored. */
  lemma {:induction false} NothingOutsideDependencies(s: PomState, events: seq<Event>)
    requires !s.inDependencies && !s.inDependency
    requires forall k :: 0 <= k < |events| ==> !OpensDependencies(events[k])
    ensures PomRun(s, events).deps == s.deps
    decreases |events|
  {
    if events != [] && !Stops(events[0]) {
      NothingOutsideDependencies(PomStep(s, events[0]), events[1..]);
    }
  }

  // ---------------------------------------------------------------------
  // build.gradle and gradle.lockfile

  /** Coordinates as the two `build.gradle` patterns capture them. */
  datatype Coordinates = Coordinates(group: string, artifact: string, version: string)

  /** A `build.gradle` match always yields its one dependency. */
  function CoordinatesDep(c: Coordinates): (r: Option<Dependency>)
    ensures r.Some? && r.value.version == c.version && r.value.ecosystem == Java
    ensures r.value.name == if c.group == [] then c.artifact else c.group + ":" + c.artifact
    ensures r.value.licenseRaw.None? && r.value.licenseSpdx.None? && r.value.source == LicenseSource.Unknown
  {
    Some(MakeDep(c.group, c.artifact, c.version))
  }

  /** `parse_build_gradle` after its pattern matching: one dependency per
      match, shorthand matches first. */
  method ParseBuildGradle(matches: seq<Coordinates>) returns (deps: seq<Dependency>)
    ensures deps == Collect(matches, CoordinatesDep)
  {
    deps := [];
    for i := 0 to |matches|
      invariant deps == Collect(matches[..i], CoordinatesDep)
    {
      assert matches[..i + 1][..i] == matches[..i];
      deps := deps + [MakeDep(matches[i].group, matches[i].artifact, matches[i].version)];
    }
    assert matches[..|matches|] == matches;
  }

  predicate NotColon(c: char) {
    c != ':'
  }

  /** The version class `[^=\s]`. */
  predicate LockVersionChar(c: char) {
    c != '=' && !IsWhitespace(c)
  }

  predicate AllIn(s: string, keep: char -> bool) {
    forall i :: 0 <= i < |s| ==> keep(s[i])
  }

  /** A non-empty colon-free field followed by `:`: the field and the rest. */
  function Field(s: string): (r: Option<(string, string)>)
    ensures r.Some? ==> r.value.0 != [] && AllIn(r.value.0, NotColon) && s == r.value.0 + ":" + r.value.1
  {
    var n := Span(s, NotColon);
    if n == 0 || n == |s| then None
    else
      assert s == s[..n] + ":" + s[n + 1..];
      Some((s[..n], s[n + 1..]))
  }

  /** The pattern `^([^:]+):([^:]+):([^=\s]+)`. */
  function MatchLockLine(line: string): (r: Option<Coordinates>)
    ensures r.Some? ==> r.value.group != [] && AllIn(r.value.group, NotColon)
    ensures r.Some? ==> r.value.artifact != [] && AllIn(r.value.artifact, NotColon)
    ensures r.Some? ==> r.value.version != [] && AllIn(r.value.version, LockVersionChar)
  {
    match Field(line)
    case None => None
    case Some((group, rest)) =>
      match Field(rest)
      case None => None
      case Some((artifact, rest')) =>
        var n := Span(rest', LockVersionChar);
        if n == 0 then None else Some(Coordinates(group, artifact, rest'[..n]))
  }

  lemma FieldOfShape(f: string, rest: string)
    requires f != [] && AllIn(f, NotColon)
    ensures Field(f + (":" + rest)) == Some((f, rest))
  {
    SpanOfPrefix(f, ":" + rest, NotColon);
    var s := f + (":" + rest);
    assert s[..|f|] == f && s[|f| + 1..] == rest;
  }

  /** The pattern captures exactly the coordinates of a line of the shape
      `group:artifact:version` followed by `=` or whitespace or nothing. */
  lemma LockLineOfShape(group: string, artifact: string, version: string, tail: string)
    requires group != [] && AllIn(group, NotColon)
    requires artifact != [] && AllIn(artifact, NotColon)
    requires version != [] && AllIn(version, LockVersionChar)
    requires tail != [] ==> !LockVersionChar(tail[0])
    ensures MatchLockLine(group + (":" + (artifact + (":" + (version + tail))))) ==
            Some(Coordinates(group, artifact, version))
  {
    FieldOfShape(group, artifact + (":" + (version + tail)));
    FieldOfShape(artifact, version + tail);
    SpanOfPrefix(version, tail, LockVersionChar);
    assert (version + tail)[..|version|] == version;
  }

  /** One line of `gradle.lockfile`: trimmed; empty and `#` lines skipped. */
  function LockfileDep(line: string): (r: Option<Dependency>)
    ensures r.Some? ==> IsJavaDep(r.value)
    ensures Trim(line) == [] ==> r.None?
  {
    var t := Trim(line);
    if t == [] || t[0] == '#' then None
    else
      match MatchLockLine(t)
      case None => None
      case Some(c) =>
        MakeDepIsJavaDep(c.group, c.artifact, c.version);
        Some(MakeDep(c.group, c.artifact, c.version))
  }

  /** `parse_gradle_lockfile` over the file's lines. */
  method ParseGradleLockfile(lines: seq<string>) returns (deps: seq<Dependency>)
    ensures deps == Collect(lines, LockfileDep)
  {
    deps := [];
    for i := 0 to |lines|
      invariant deps == Collect(lines[..i], LockfileDep)
    {
      assert lines[..i + 1][..i] == lines[..i];
      var d := LockfileDep(lines[i]);
      if d.Some? {
        deps := deps + [d.value];
      }
    }
    assert lines[..|lines|] == lines;
  }

  // ---------------------------------------------------------------------
  // analyze

  /** The project directory as the analyzer reads it: each source is None
      when it is absent or cannot be read. */
  datatype Manifests = Manifests(
    pom: Option<seq<Event>>,
    buildGradle: Option<seq<Coordinates>>,
    buildGradleKts: Option<seq<Coordinates>>,
    lockfile: Option<seq<string>>)

  function PomDeps(pom: Option<seq<Event>>): seq<Dependency> {
    match pom
    case None => []
    case Some(events) => PomRun(PomStart, events).deps
  }

  function GradleDeps(matches: Option<seq<Coordinates>>): seq<Dependency> {
    match matches
    case None => []
    case Some(ms) => Collect(ms, CoordinatesDep)
  }

  function LockfileDeps(lockfile: Option<seq<string>>): seq<Dependency> {
    match lockfile
    case None => []
    case Some(lines) => Collect(lines, LockfileDep)
  }

  /** The four sources' dependencies, in the order the analyzer reads them. */
  function Sources(m: Manifests): seq<seq<Dependency>> {
    [PomDeps(m.pom), GradleDeps(m.buildGradle), GradleDeps(m.buildGradleKts), LockfileDeps(m.lockfile)]
  }

  /** `JavaAnalyzer::analyze`: the sources read in turn (an absent one
      contributes nothing), then merged by `name:version`. */
  method Analyze(m: Manifests) returns (deps: seq<Dependency>)
    ensures deps == MergeAll(Sources(m), NameColonVersion)
  {
    var pom: seq<Dependency> := [];
    if m.pom.Some? {
      pom := ParsePom(m.pom.value);
    }
    var gradle: seq<Dependency> := [];
    if m.buildGradle.Some? {
      gradle := ParseBuildGradle(m.buildGradle.value);
    }
    var kts: seq<Dependency> := [];
    if m.buildGradleKts.Some? {
      kts := ParseBuildGradle(m.buildGradleKts.value);
    }
    var lock: seq<Dependency> := [];
    if m.lockfile.Some? {
      lock := ParseGradleLockfile(m.lockfile.value);
    }
    deps := MergeInOrder([pom, gradle, kts, lock], NameColonVersion);
  }

  /** No two dependencies of the result share `name:version`. */
  lemma MergedKeysAreDistinct(m: Manifests)
    ensures DistinctKeys(MergeAll(Sources(m), NameColonVersion), NameColonVersion)
  {
    MergeAllIsDistinct(Sources(m), NameColonVersion);
  }
}
