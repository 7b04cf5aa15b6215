/** The Node analyzer: `package-lock.json`, then `yarn.lock`, then, only when
    neither gave anything, `package.json`; deduplicated by `name@version`. */
module NodeAnalyzer {
  import opened Wrappers
  import opened Text
  import opened Seqs
  import opened Json
  import opened Models
  import opened Dedup

  /** `make_dep`: the license, when there is one, is both the raw and the
      SPDX license and comes from the manifest. */
  function MakeDep(name: string, version: string, license: Option<string>): (d: Dependency)
    ensures d.name == name && d.version == version && d.ecosystem == Node
    ensures d.licenseRaw == license && d.licenseSpdx == license
    ensures license.Some? ==> d.source == Manifest
    ensures license.None? ==> d.source == LicenseSource.Unknown
    ensures d.risk == LicenseRisk.Unknown && d.verdict == Warn
  {
    var source := if license.Some? then Manifest else LicenseSource.Unknown;
    Dependency(name, version, Node, license, license, LicenseRisk.Unknown, Warn, source)
  }

  /** The package name of a `packages` key: one leading `node_modules/`
      removed, so a scoped `node_modules/@scope/foo` keeps its scope. */
  function LockName(key: string): (name: string)
    ensures StartsWith(key, "node_modules/") ==> key == "node_modules/" + name
    ensures !StartsWith(key, "node_modules/") ==> name == key
  {
    StripPrefix(key, "node_modules/").GetOr(key)
  }

  /** Only one prefix is removed. */
  lemma LockNameStripsOnce(name: string)
    ensures LockName("node_modules/" + name) == name
  {
    var key := "node_modules/" + name;
    assert key[..13] == "node_modules/";
  }

  /** One `packages` entry. `installed` is the license field of the
      installed package's own `package.json`, read from `node_modules`. */
  function LockEntry(installed: string -> Option<string>, entry: (string, Json)): (r: Option<Dependency>)
    ensures r.None? <==> entry.0 == []
    ensures r.Some? ==> r.value.name == LockName(entry.0)
    ensures r.Some? ==> r.value.version == AsStr(Get(entry.1, "version")).GetOr("*")
    ensures r.Some? && AsStr(Get(entry.1, "license")).Some? ==>
              r.value.licenseRaw == AsStr(Get(entry.1, "license"))
    ensures r.Some? && AsStr(Get(entry.1, "license")).None? ==> r.value.licenseRaw == installed(entry.0)
  {
    var (key, info) := entry;
    if key == [] then None
    else
      var version := AsStr(Get(info, "version")).GetOr("*");
      var license := AsStr(Get(info, "license")).Or(installed(key));
      Some(MakeDep(LockName(key), version, license))
  }

  /** `parse_package_lock_json`: the entries of `packages`, in order. */
  method ParsePackageLock(doc: Json, installed: string -> Option<string>) returns (deps: seq<Dependency>)
    ensures deps == Collect(Section(doc, "packages"), e => LockEntry(installed, e))
  {
    deps := CollectInto([], Section(doc, "packages"), e => LockEntry(installed, e));
  }

  /** A `yarn.lock` block as its header and lookahead give it: the package
      name and the version found before the next blank line (empty when
      there is none). */
  datatype YarnBlock = YarnBlock(name: string, version: string)

  function YarnDep(b: YarnBlock): (r: Option<Dependency>)
    ensures r.Some? <==> b.version != []
    ensures r.Some? ==> r.value == MakeDep(b.name, b.version, None)
  {
    if b.version == [] then None else Some(MakeDep(b.name, b.version, None))
  }

  /** `parse_yarn_lock` after its header and version matching: a block
      becomes a dependency only when it has a version line. */
  method ParseYarnLock(blocks: seq<YarnBlock>) returns (deps: seq<Dependency>)
    ensures deps == Collect(blocks, YarnDep)
  {
    deps := [];
    for i := 0 to |blocks|
      invariant deps == Collect(blocks[..i], YarnDep)
    {
      assert blocks[..i + 1][..i] == blocks[..i];
      if blocks[i].version != [] {
        deps := deps + [MakeDep(blocks[i].name, blocks[i].version, None)];
      }
    }
    assert blocks[..|blocks|] == blocks;
  }

  /** The characters `package.json` strips from the front of a declared
      range: anything but an ASCII digit or `*`. */
  predicate RangeOperatorChar(c: char) {
    !('0' <= c <= '9') && c != '*'
  }

  /** The version of a `package.json` entry: its string value, `*` when it
      is not a string, with the leading range operators removed. */
  function DeclaredVersion(range: Json): (v: string)
    ensures v == [] || '0' <= v[0] <= '9' || v[0] == '*'
    ensures !range.JStr? ==> v == "*"
    ensures range.JStr? ==> exists k :: 0 <= k <= |range.s| && AllOperators(range.s[..k]) && v == range.s[k..]
  {
    var s := AsStr(Some(range)).GetOr("*");
    var n := Span(s, RangeOperatorChar);
    assert AllOperators(s[..n]);
    s[n..]
  }

  predicate AllOperators(s: string) {
    forall i :: 0 <= i < |s| ==> RangeOperatorChar(s[i])
  }

  /** `^4.18.2` gives `4.18.2`: exactly the operators are removed. */
  lemma OperatorsAreStripped(op: string, version: string)
    requires AllOperators(op)
    requires version != [] ==> !RangeOperatorChar(version[0])
    ensures DeclaredVersion(JStr(op + version)) == version
  {
    SpanOfPrefix(op, version, RangeOperatorChar);
    assert (op + version)[|op|..] == version;
  }

  function PackageJsonDep(entry: (string, Json)): (r: Option<Dependency>)
    ensures r.Some? && r.value.name == entry.0 && r.value.version == DeclaredVersion(entry.1)
    ensures r.value.licenseRaw == None && r.value.ecosystem == Node
  {
    Some(MakeDep(entry.0, DeclaredVersion(entry.1), None))
  }

  const PackageJsonSections: seq<string> := ["dependencies", "devDependencies"]

  /** `parse_package_json`: `dependencies`, then `devDependencies`. */
  method ParsePackageJson(doc: Json) returns (deps: seq<Dependency>)
    ensures deps == Collect(Sections(doc, PackageJsonSections), PackageJsonDep)
  {
    deps := [];
    for k := 0 to |PackageJsonSections|
      invariant deps == Collect(Sections(doc, PackageJsonSections[..k]), PackageJsonDep)
    {
      CollectSectionsStep(doc, PackageJsonSections, k, PackageJsonDep);
      var entries := Section(doc, PackageJsonSections[k]);
      deps := CollectInto(deps, entries, PackageJsonDep);
    }
    assert PackageJsonSections[..2] == PackageJsonSections;
  }

  /** `dependencies` is read before `devDependencies`. */
  lemma DependenciesBeforeDevDependencies(doc: Json)
    ensures Sections(doc, PackageJsonSections) == Section(doc, "dependencies") + Section(doc, "devDependencies")
  {
    var keys := PackageJsonSections;
    assert keys[..|keys| - 1] == ["dependencies"] && keys[|keys| - 1] == "devDependencies";
    assert ["dependencies"][..0] == [];
    assert Sections(doc, ["dependencies"]) == Section(doc, "dependencies");
  }

  /** Every member of the two sections becomes a dependency. */
  lemma PackageJsonKeepsEveryEntry(doc: Json)
    ensures |Collect(Sections(doc, PackageJsonSections), PackageJsonDep)| == |Sections(doc, PackageJsonSections)|
  {
    CollectTotal(Sections(doc, PackageJsonSections), PackageJsonDep);
  }

  /** The project directory as the analyzer reads it: each manifest is None
      when it is absent or cannot be read or parsed. */
  datatype Manifests = Manifests(
    packageLock: Option<Json>,
    yarnLock: Option<seq<YarnBlock>>,
    packageJson: Option<Json>)

  function LockDeps(m: Manifests, installed: string -> Option<string>): seq<Dependency> {
    match m.packageLock
    case None => []
    case Some(doc) => Collect(Section(doc, "packages"), e => LockEntry(installed, e))
  }

  function YarnDeps(m: Manifests): seq<Dependency> {
    match m.yarnLock
    case None => []
    case Some(blocks) => Collect(blocks, YarnDep)
  }

  function PackageJsonDeps(m: Manifests): seq<Dependency> {
    match m.packageJson
    case None => []
    case Some(doc) => Collect(Sections(doc, PackageJsonSections), PackageJsonDep)
  }

  /** The merged result: the lockfile entries whose `name@version` is new,
      then the yarn entries whose key is still new; `package.json` only
      when those two gave nothing. */
  function Merged(m: Manifests, installed: string -> Option<string>): (r: seq<Dependency>)
    ensures |r| <= |LockDeps(m, installed)| + |YarnDeps(m)| + |PackageJsonDeps(m)|
    ensures m.packageJson.None? ==> |r| <= |LockDeps(m, installed)| + |YarnDeps(m)|
  {
    var lock := LockDeps(m, installed);
    var yarn := YarnDeps(m);
    var seen := KeySet(lock, NameAtVersion) + KeySet(yarn, NameAtVersion);
    var front := Fresh(lock, {}, NameAtVersion) + Fresh(yarn, KeySet(lock, NameAtVersion), NameAtVersion);
    if m.packageJson.Some? && front == [] then front + Fresh(PackageJsonDeps(m), seen, NameAtVersion)
    else front
  }

  /** `NodeAnalyzer::analyze`. */
  method Analyze(m: Manifests, installed: string -> Option<string>) returns (deps: seq<Dependency>)
    ensures deps == Merged(m, installed)
  {
    ghost var lock := LockDeps(m, installed);
    ghost var yarn := YarnDeps(m);
    deps := [];
    var seen: set<string> := {};
    if m.packageLock.Some? {
      var parsed := ParsePackageLock(m.packageLock.value, installed);
      deps, seen := Merge(deps, seen, parsed, NameAtVersion);
    }
    assert deps == Fresh(lock, {}, NameAtVersion) && seen == KeySet(lock, NameAtVersion);
    if m.yarnLock.Some? {
      var parsed := ParseYarnLock(m.yarnLock.value);
      deps, seen := Merge(deps, seen, parsed, NameAtVersion);
    }
    assert deps == Fresh(lock, {}, NameAtVersion) + Fresh(yarn, KeySet(lock, NameAtVersion), NameAtVersion);
    assert seen == KeySet(lock, NameAtVersion) + KeySet(yarn, NameAtVersion);
    if m.packageJson.Some? && deps == [] {
      var parsed := ParsePackageJson(m.packageJson.value);
      deps, seen := Merge(deps, seen, parsed, NameAtVersion);
    }
  }

  /** `package.json` is consulted only when both lockfiles are absent or
      empty: any lockfile entry makes the result the lockfiles' alone. */
  lemma PackageJsonIsAFallback(m: Manifests, installed: string -> Option<string>)
    requires LockDeps(m, installed) != [] || YarnDeps(m) != []
    ensures Merged(m, installed) ==
            Fresh(LockDeps(m, installed), {}, NameAtVersion) +
            Fresh(YarnDeps(m), KeySet(LockDeps(m, installed), NameAtVersion), NameAtVersion)
  {
    var lock := LockDeps(m, installed);
    if lock == [] {
      assert KeySet(lock, NameAtVersion) == {};
    }
  }

  /** No two dependencies of the result share `name@version`. */
  lemma MergedKeysAreDistinct(m: Manifests, installed: string -> Option<string>)
    ensures DistinctKeys(Merged(m, installed), NameAtVersion)
  {
    var lock := LockDeps(m, installed);
    var yarn := YarnDeps(m);
    MergeKeepsKeysDistinct([], {}, lock, NameAtVersion);
    assert [] + Fresh(lock, {}, NameAtVersion) == Fresh(lock, {}, NameAtVersion);
    var s1 := KeySet(lock, NameAtVersion);
    assert {} + s1 == s1;
    var front := Fresh(lock, {}, NameAtVersion);
    MergeKeepsKeysDistinct(front, s1, yarn, NameAtVersion);
    var both := front + Fresh(yarn, s1, NameAtVersion);
    MergeKeepsKeysDistinct(both, s1 + KeySet(yarn, NameAtVersion), PackageJsonDeps(m), NameAtVersion);
  }
}
