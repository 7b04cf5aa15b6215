/** The Python analyzer: `Pipfile.lock`, then `requirements.txt`, then
    `pyproject.toml`, deduplicated by lower-cased name. */
module PythonAnalyzer {
  import opened Wrappers
  import opened Text
  import opened Seqs
  import opened Json
  import opened Models
  import opened Dedup

  /** `make_dep`: a Python dependency with no license yet. */
  function MakeDep(name: string, version: string): (d: Dependency)
    ensures d.name == name && d.version == version && d.ecosystem == Python
    ensures d.licenseRaw.None? && d.licenseSpdx.None?
    ensures d.risk == LicenseRisk.Unknown && d.verdict == Warn && d.source == LicenseSource.Unknown
  {
    Unlicensed(name, version, Python)
  }

  /** The name class `[A-Za-z0-9_\-\.]` of both requirement patterns. */
  predicate NameChar(c: char) {
    'A' <= c <= 'Z' || 'a' <= c <= 'z' || '0' <= c <= '9' || c == '_' || c == '-' || c == '.'
  }

  /** The version class `[^\s;]` of a `requirements.txt` pin. */
  predicate PinChar(c: char) {
    !IsWhitespace(c) && c != ';'
  }

  /** The version class `[^\s;,\[]` of a `pyproject.toml` pin. */
  predicate PyprojectPinChar(c: char) {
    !IsWhitespace(c) && c != ';' && c != ',' && c != '['
  }

  predicate AllIn(s: string, keep: char -> bool) {
    forall i :: 0 <= i < |s| ==> keep(s[i])
  }

  predicate AllWhitespace(s: string) {
    forall i :: 0 <= i < |s| ==> IsWhitespace(s[i])
  }

  /** The `\s*==\s*` between a name and its version: what follows it, or
      None when the operator is not there. */
  function AfterOperator(s: string): (r: Option<string>)
    ensures r.Some? ==> |r.value| <= |s| && (r.value == [] || !IsWhitespace(r.value[0]))
  {
    var t := TrimStart(s);
    if |t| >= 2 && t[0] == '=' && t[1] == '=' then Some(TrimStart(t[2..])) else None
  }

  /** Whitespace, `==` and whitespace are consumed, and nothing more. */
  lemma OperatorOfShape(w1: string, w2: string, rest: string)
    requires AllWhitespace(w1) && AllWhitespace(w2)
    requires rest != [] ==> !IsWhitespace(rest[0])
    ensures AfterOperator(w1 + ("==" + (w2 + rest))) == Some(rest)
  {
    var e := "==" + (w2 + rest);
    assert e[0] == '=' && e[1] == '=';
    TrimStartOfPrefix(w1, e);
    assert e[2..] == w2 + rest;
    TrimStartOfPrefix(w2, rest);
  }

  /** A text that starts with neither whitespace nor `=` has no operator. */
  lemma NoOperator(rest: string)
    requires rest != [] ==> rest[0] != '=' && !IsWhitespace(rest[0])
    ensures AfterOperator(rest) == None
  {
  }

  /** The `==\s*([^\s;]+)` part of a pin, after the name. */
  function PinAfterName(rest: string): (v: Option<string>)
    ensures v.Some? ==> v.value != [] && AllIn(v.value, PinChar)
  {
    match AfterOperator(rest)
    case None => None
    case Some(value) =>
      var n := Span(value, PinChar);
      if n == 0 then None else Some(value[..n])
  }

  /** The pattern `^([A-Za-z0-9_\-\.]+)\s*==\s*([^\s;]+)`: the name and the
      version it captures. The classes cannot overlap where the pattern
      moves from one to the next, so the match is the greedy one. */
  function MatchPin(line: string): (r: Option<(string, string)>)
    ensures r.Some? ==> r.value.0 != [] && AllIn(r.value.0, NameChar) && StartsWith(line, r.value.0)
    ensures r.Some? ==> r.value.1 != [] && AllIn(r.value.1, PinChar)
    ensures line == [] || !NameChar(line[0]) ==> r.None?
  {
    var n := Span(line, NameChar);
    if n == 0 then None
    else
      match PinAfterName(line[n..])
      case None => None
      case Some(version) => Some((line[..n], version))
  }

  /** Once a name is matched, the pattern's result is what follows it. */
  lemma MatchPinAfterName(name: string, rest: string)
    requires name != [] && AllIn(name, NameChar)
    requires rest != [] ==> !NameChar(rest[0])
    ensures MatchPin(name + rest) == if PinAfterName(rest).Some? then Some((name, PinAfterName(rest).value)) else None
  {
    SpanOfPrefix(name, rest, NameChar);
    assert (name + rest)[..|name|] == name && (name + rest)[|name|..] == rest;
  }

  lemma PinAfterNameOfShape(w1: string, w2: string, version: string, tail: string)
    requires AllWhitespace(w1) && AllWhitespace(w2)
    requires version != [] && AllIn(version, PinChar)
    requires tail != [] ==> !PinChar(tail[0])
    ensures PinAfterName(w1 + ("==" + (w2 + (version + tail)))) == Some(version)
  {
    OperatorOfShape(w1, w2, version + tail);
    SpanOfPrefix(version, tail, PinChar);
    assert (version + tail)[..|version|] == version;
  }

  /** The pattern captures exactly the name and version of a line of the
      shape `name ws == ws version tail`. */
  lemma PinnedLineMatches(name: string, w1: string, w2: string, version: string, tail: string)
    requires name != [] && AllIn(name, NameChar)
    requires AllWhitespace(w1) && AllWhitespace(w2)
    requires version != [] && AllIn(version, PinChar)
    requires tail != [] ==> !PinChar(tail[0])
    ensures MatchPin(name + (w1 + ("==" + (w2 + (version + tail))))) == Some((name, version))
  {
    var rest := w1 + ("==" + (w2 + (version + tail)));
    assert rest[0] == if w1 == [] then '=' else w1[0];
    MatchPinAfterName(name, rest);
    PinAfterNameOfShape(w1, w2, version, tail);
  }

  /** A name followed by anything but whitespace and `==`, such as
      `flask>=2.0.0`, is not a pin. */
  lemma UnpinnedLineDoesNotMatch(name: string, rest: string)
    requires name != [] && AllIn(name, NameChar)
    requires rest != [] && rest[0] != '=' && !NameChar(rest[0]) && !IsWhitespace(rest[0])
    ensures MatchPin(name + rest) == None
  {
    SpanOfPrefix(name, rest, NameChar);
    assert (name + rest)[|name|..] == rest;
    NoOperator(rest);
  }

  /** One line of `requirements.txt`: trimmed; empty lines and lines that
      start with `#` or `-` are skipped; otherwise kept when it is a pin. */
  function RequirementDep(line: string): (r: Option<Dependency>)
    ensures r.Some? ==> r.value.ecosystem == Python && r.value.version != []
    ensures r.Some? ==> IsAscii(r.value.name)
    ensures Trim(line) == [] ==> r.None?
  {
    var t := Trim(line);
    if t == [] || t[0] == '#' || t[0] == '-' then None
    else
      match MatchPin(t)
      case None => None
      case Some((name, version)) => Some(MakeDep(name, version))
  }

  /** `parse_requirements_txt` over the file's lines. */
  method ParseRequirements(lines: seq<string>) returns (deps: seq<Dependency>)
    ensures deps == Collect(lines, RequirementDep)
  {
    deps := [];
    for i := 0 to |lines|
      invariant deps == Collect(lines[..i], RequirementDep)
    {
      assert lines[..i + 1][..i] == lines[..i];
      var d := RequirementDep(lines[i]);
      if d.Some? {
        deps := deps + [d.value];
      }
    }
    assert lines[..|lines|] == lines;
  }

  /** The version of a `Pipfile.lock` entry: its `version` string, `*` when
      there is none, with every leading `==` removed. */
  function PipfileVersion(info: Json): (v: string)
    ensures !StartsWith(v, "==")
    ensures AsStr(Get(info, "version")).None? ==> v == "*"
  {
    TrimStartMatches(AsStr(Get(info, "version")).GetOr("*"), "==")
  }

  function PipfileDep(entry: (string, Json)): (r: Option<Dependency>)
    ensures r.Some? && r.value.name == entry.0 && r.value.version == PipfileVersion(entry.1)
  {
    Some(MakeDep(entry.0, PipfileVersion(entry.1)))
  }

  const PipfileSections: seq<string> := ["default", "develop"]

  /** `parse_pipfile_lock`: the `default` section, then `develop`. */
  method ParsePipfileLock(doc: Json) returns (deps: seq<Dependency>)
    ensures deps == Collect(Sections(doc, PipfileSections), PipfileDep)
  {
    deps := [];
    for k := 0 to |PipfileSections|
      invariant deps == Collect(Sections(doc, PipfileSections[..k]), PipfileDep)
    {
      CollectSectionsStep(doc, PipfileSections, k, PipfileDep);
      var entries := Section(doc, PipfileSections[k]);
      deps := CollectInto(deps, entries, PipfileDep);
    }
    assert PipfileSections[..2] == PipfileSections;
  }

  /** The optional `(?:==\s*([^\s;,\[]+))?` part of a requirement, after
      the name: the pinned version, or `*` when the group does not match. */
  function OptionalPin(rest: string): (v: string)
    ensures v == "*" || (v != [] && AllIn(v, PyprojectPinChar))
  {
    match AfterOperator(rest)
    case None => "*"
    case Some(value) =>
      var n := Span(value, PyprojectPinChar);
      if n == 0 then "*" else value[..n]
  }

  /** The pattern `^([A-Za-z0-9_\-\.]+)\s*(?:==\s*([^\s;,\[]+))?`: the name
      and its pinned version or `*`; no match when the text does not start
      with a name character. */
  function MatchRequirement(spec: string): (r: Option<(string, string)>)
    ensures r.Some? ==> r.value.0 != [] && AllIn(r.value.0, NameChar) && StartsWith(spec, r.value.0)
    ensures r.Some? ==> r.value.1 == "*" || (r.value.1 != [] && AllIn(r.value.1, PyprojectPinChar))
    ensures r.None? <==> spec == [] || !NameChar(spec[0])
  {
    var n := Span(spec, NameChar);
    if n == 0 then None else Some((spec[..n], OptionalPin(spec[n..])))
  }

  lemma MatchRequirementAfterName(name: string, rest: string)
    requires name != [] && AllIn(name, NameChar)
    requires rest != [] ==> !NameChar(rest[0])
    ensures MatchRequirement(name + rest) == Some((name, OptionalPin(rest)))
  {
    SpanOfPrefix(name, rest, NameChar);
    assert (name + rest)[..|name|] == name && (name + rest)[|name|..] == rest;
  }

  /** A requirement without a `==` pin, such as `requests>=2`, gets `*`. */
  lemma UnpinnedRequirementIsStar(name: string, rest: string)
    requires name != [] && AllIn(name, NameChar)
    requires rest != [] ==> rest[0] != '=' && !NameChar(rest[0]) && !IsWhitespace(rest[0])
    ensures MatchRequirement(name + rest) == Some((name, "*"))
  {
    MatchRequirementAfterName(name, rest);
    NoOperator(rest);
  }

  /** A pinned requirement gets its pinned version. */
  lemma PinnedRequirementMatches(name: string, w1: string, w2: string, version: string, tail: string)
    requires name != [] && AllIn(name, NameChar)
    requires AllWhitespace(w1) && AllWhitespace(w2)
    requires version != [] && AllIn(version, PyprojectPinChar)
    requires tail != [] ==> !PyprojectPinChar(tail[0])
    ensures MatchRequirement(name + (w1 + ("==" + (w2 + (version + tail))))) == Some((name, version))
  {
    var rest := w1 + ("==" + (w2 + (version + tail)));
    assert rest[0] == if w1 == [] then '=' else w1[0];
    MatchRequirementAfterName(name, rest);
    OperatorOfShape(w1, w2, version + tail);
    SpanOfPrefix(version, tail, PyprojectPinChar);
    assert (version + tail)[..|version|] == version;
  }

  function PyprojectDep(spec: string): (r: Option<Dependency>)
    ensures r.Some? ==> r.value.ecosystem == Python && r.value.name != []
    ensures r.Some? ==> IsAscii(r.value.name)
  {
    match MatchRequirement(spec)
    case None => None
    case Some((name, version)) => Some(MakeDep(name, version))
  }

  /** A `pyproject.toml` as far as the analyzer reads it: the
      `[project].dependencies` strings, None when there is no `[project]`
      table. A `[project]` table without `dependencies` has the empty list. */
  datatype Pyproject = Pyproject(project: Option<seq<string>>)

  /** `parse_pyproject_toml`. */
  method ParsePyproject(doc: Pyproject) returns (deps: seq<Dependency>)
    ensures doc.project.None? ==> deps == []
    ensures doc.project.Some? ==> deps == Collect(doc.project.value, PyprojectDep)
  {
    deps := [];
    if doc.project.Some? {
      var specs := doc.project.value;
      for i := 0 to |specs|
        invariant deps == Collect(specs[..i], PyprojectDep)
      {
        assert specs[..i + 1][..i] == specs[..i];
        var d := PyprojectDep(specs[i]);
        if d.Some? {
          deps := deps + [d.value];
        }
      }
      assert specs[..|specs|] == specs;
    }
  }

  /** The project directory as the analyzer reads it: each manifest is None
      when it is absent or cannot be read or parsed. */
  datatype Manifests = Manifests(
    pipfileLock: Option<Json>,
    requirements: Option<seq<string>>,
    pyproject: Option<Pyproject>)

  function PipfileDeps(m: Manifests): seq<Dependency> {
    match m.pipfileLock
    case None => []
    case Some(doc) => Collect(Sections(doc, PipfileSections), PipfileDep)
  }

  function RequirementsDeps(m: Manifests): seq<Dependency> {
    match m.requirements
    case None => []
    case Some(lines) => Collect(lines, RequirementDep)
  }

  function PyprojectDeps(m: Manifests): seq<Dependency> {
    match m.pyproject
    case Some(Pyproject(Some(specs))) => Collect(specs, PyprojectDep)
    case _ => []
  }

  /** The merged result: every `Pipfile.lock` entry, then the
      `requirements.txt` entries whose lower-cased name is new, then the
      `pyproject.toml` entries whose lower-cased name is still new. */
  function Merged(m: Manifests): (r: seq<Dependency>)
    ensures |PipfileDeps(m)| <= |r| <= |PipfileDeps(m)| + |RequirementsDeps(m)| + |PyprojectDeps(m)|
  {
    var pip := PipfileDeps(m);
    var req := RequirementsDeps(m);
    var seen := KeySet(pip, LowerName);
    pip + Fresh(req, seen, LowerName) + Fresh(PyprojectDeps(m), seen + KeySet(req, LowerName), LowerName)
  }

  /** `PythonAnalyzer::analyze`. */
  method Analyze(m: Manifests) returns (deps: seq<Dependency>)
    ensures deps == Merged(m)
  {
    ghost var pip, req := PipfileDeps(m), RequirementsDeps(m);
    deps := [];
    var seen: set<string> := {};
    if m.pipfileLock.Some? {
      var parsed := ParsePipfileLock(m.pipfileLock.value);
      deps, seen := AppendAll(deps, seen, parsed, LowerName);
    }
    assert deps == pip && seen == KeySet(pip, LowerName);
    if m.requirements.Some? {
      var parsed := ParseRequirements(m.requirements.value);
      deps, seen := Merge(deps, seen, parsed, LowerName);
    }
    assert deps == pip + Fresh(req, KeySet(pip, LowerName), LowerName);
    assert seen == KeySet(pip, LowerName) + KeySet(req, LowerName);
    if m.pyproject.Some? {
      var parsed := ParsePyproject(m.pyproject.value);
      deps, seen := Merge(deps, seen, parsed, LowerName);
    }
  }

  /** `Pipfile.lock` has priority: all its entries come first, in order,
      even when they repeat a name. */
  lemma PipfileEntriesComeFirst(m: Manifests)
    ensures |PipfileDeps(m)| <= |Merged(m)| && Merged(m)[..|PipfileDeps(m)|] == PipfileDeps(m)
  {
    var pip := PipfileDeps(m);
    var rest := Fresh(RequirementsDeps(m), KeySet(pip, LowerName), LowerName) +
      Fresh(PyprojectDeps(m), KeySet(pip, LowerName) + KeySet(RequirementsDeps(m), LowerName), LowerName);
    assert Merged(m) == pip + rest;
  }

  /** Names read from `requirements.txt` and `pyproject.toml` are ASCII, so
      their merge key is their `to_ascii_lowercase`. */
  lemma {:induction false} ScannedNamesAreAscii(m: Manifests)
    ensures forall d :: d in RequirementsDeps(m) ==> IsAscii(d.name) && Key(d, LowerName) == Lower(d.name)
    ensures forall d :: d in PyprojectDeps(m) ==> IsAscii(d.name) && Key(d, LowerName) == Lower(d.name)
  {
    if m.requirements.Some? {
      CollectMembers(m.requirements.value, RequirementDep);
    }
    if m.pyproject.Some? && m.pyproject.value.project.Some? {
      CollectMembers(m.pyproject.value.project.value, PyprojectDep);
    }
    forall d | d in RequirementsDeps(m) || d in PyprojectDeps(m)
      ensures Key(d, LowerName) == Lower(d.name)
    {
      FoldOfAscii(d.name);
    }
  }

  /** The `requirements.txt` entries kept: each is a requirement whose
      lower-cased name no `Pipfile.lock` entry has, kept entries differ in
      lower-cased name, the first requirement of every new name is kept, and
      together they take every lower-cased name of the file. */
  lemma RequirementsAreDeduplicated(m: Manifests)
    ensures var pip, req := KeySet(PipfileDeps(m), LowerName), RequirementsDeps(m);
            var f := Fresh(req, pip, LowerName);
            (forall i :: 0 <= i < |f| ==> f[i] in req && Key(f[i], LowerName) !in pip)
            && DistinctKeys(f, LowerName)
            && (forall i :: (0 <= i < |req| && Key(req[i], LowerName) !in pip &&
                  forall j :: 0 <= j < i ==> Key(req[j], LowerName) != Key(req[i], LowerName)) ==> req[i] in f)
            && pip + KeySet(f, LowerName) == pip + KeySet(req, LowerName)
  {
    var pip, req := KeySet(PipfileDeps(m), LowerName), RequirementsDeps(m);
    FreshIsNewAndDistinct(req, pip, LowerName);
    FreshCoversKeys(req, pip, LowerName);
    forall i | 0 <= i < |req| && Key(req[i], LowerName) !in pip &&
        (forall j :: 0 <= j < i ==> Key(req[j], LowerName) != Key(req[i], LowerName))
      ensures req[i] in Fresh(req, pip, LowerName)
    {
      FreshKeepsFirst(req, pip, LowerName, i);
    }
  }

  predicate IsUnlicensedPython(d: Dependency) {
    d == Unlicensed(d.name, d.version, Python)
  }

  lemma {:induction false} CollectedAreUnlicensed<T>(xs: seq<T>, f: T -> Option<Dependency>)
    requires forall x :: f(x).Some? ==> IsUnlicensedPython(f(x).value)
    ensures forall d :: d in Collect(xs, f) ==> IsUnlicensedPython(d)
  {
    CollectMembers(xs, f);
  }

  /** Every dependency the analyzer yields is a Python dependency with no
      license, risk Unknown, verdict Warn and source Unknown. */
  lemma MergedAreUnlicensed(m: Manifests)
    ensures forall d :: d in Merged(m) ==> IsUnlicensedPython(d)
  {
    var pip := PipfileDeps(m);
    var req := RequirementsDeps(m);
    var py := PyprojectDeps(m);
    if m.pipfileLock.Some? {
      CollectedAreUnlicensed(Sections(m.pipfileLock.value, PipfileSections), PipfileDep);
    }
    if m.requirements.Some? {
      CollectedAreUnlicensed(m.requirements.value, RequirementDep);
    }
    if m.pyproject.Some? && m.pyproject.value.project.Some? {
      CollectedAreUnlicensed(m.pyproject.value.project.value, PyprojectDep);
    }
    var seen := KeySet(pip, LowerName);
    FreshIsNewAndDistinct(req, seen, LowerName);
    FreshIsNewAndDistinct(py, seen + KeySet(req, LowerName), LowerName);
  }
}
