/** Ecosystem detection from the names present in the project directory. */
module Detector {
  import opened Wrappers
  import opened Models

  /** The project directory as the detector sees it: the names for which a
      `join(..).exists()` test succeeds, and the entry names that `read_dir`
      enumerates, or None when the directory cannot be listed. */
  datatype Directory = Directory(files: set<string>, listing: Option<seq<string>>)

  /** The last index of `c` in `s`. */
  function LastIndexOf(s: string, c: char): (r: Option<nat>)
    ensures r.Some? ==> r.value < |s| && s[r.value] == c
    ensures r.Some? ==> forall j :: r.value < j < |s| ==> s[j] != c
    ensures r.None? ==> forall j :: 0 <= j < |s| ==> s[j] != c
  {
    if s == [] then None
    else if s[|s| - 1] == c then Some(|s| - 1)
    else LastIndexOf(s[..|s| - 1], c)
  }

  /** `Path::extension` of a directory entry: the text after the last dot,
      except that a name without a dot, or whose only dot is its first
      character, has none. */
  function Extension(name: string): (ext: Option<string>)
    ensures ext.Some? ==> exists i :: 0 < i < |name| && name[i] == '.' && ext.value == name[i + 1..] &&
                                     forall j :: i < j < |name| ==> name[j] != '.'
    ensures ext.None? ==> forall j :: 0 < j < |name| ==> name[j] != '.'
  {
    match LastIndexOf(name, '.')
    case None => None
    case Some(i) => if i == 0 then None else Some(name[i + 1..])
  }

  lemma {:induction false} LastIndexAfter(a: string, c: char, b: string)
    requires forall j :: 0 <= j < |b| ==> b[j] != c
    ensures LastIndexOf(a + [c] + b, c) == Some(|a|)
    decreases |b|
  {
    var s := a + [c] + b;
    if b != [] {
      assert s[|s| - 1] == b[|b| - 1];
      assert s[..|s| - 1] == a + [c] + b[..|b| - 1];
      LastIndexAfter(a, c, b[..|b| - 1]);
    }
  }

  /** A name made of a non-empty stem, a dot and a dot-free suffix has that
      suffix as its extension, whatever dots the stem holds. */
  lemma ExtensionOfDottedName(stem: string, ext: string)
    requires stem != []
    requires forall j :: 0 <= j < |ext| ==> ext[j] != '.'
    ensures Extension(stem + "." + ext) == Some(ext)
  {
    LastIndexAfter(stem, '.', ext);
    assert (stem + "." + ext)[|stem| + 1..] == ext;
  }

  /** A hidden name such as `.csproj`, with no other dot, has no extension. */
  lemma HiddenNameHasNoExtension(ext: string)
    requires forall j :: 0 <= j < |ext| ==> ext[j] != '.'
    ensures Extension("." + ext) == None
  {
    LastIndexAfter([], '.', ext);
  }

  predicate IsProjectFile(name: string) {
    Extension(name) == Some("csproj") || Extension(name) == Some("fsproj")
  }

  function AnyProjectFile(names: seq<string>): (b: bool)
    ensures b <==> exists i :: 0 <= i < |names| && IsProjectFile(names[i])
  {
    if names == [] then false
    else IsProjectFile(names[0]) || AnyProjectFile(names[1..])
  }

  /** `has_dotnet_project_file`: some listed entry has extension `csproj` or
      `fsproj`; an unreadable directory has none. */
  function HasDotnetProjectFile(dir: Directory): (b: bool)
    ensures b <==> dir.listing.Some? && exists i :: 0 <= i < |dir.listing.value| && IsProjectFile(dir.listing.value[i])
  {
    match dir.listing
    case None => false
    case Some(names) => AnyProjectFile(names)
  }

  /** When an ecosystem is detected: one of its marker files is present,
      or, for .NET only, the listing has a project file. */
  predicate Detected(dir: Directory, e: Ecosystem) {
    match e
    case Rust => "Cargo.toml" in dir.files || "Cargo.lock" in dir.files
    case Python =>
      "requirements.txt" in dir.files || "pyproject.toml" in dir.files || "Pipfile.lock" in dir.files
    case Java => "pom.xml" in dir.files || "build.gradle" in dir.files || "build.gradle.kts" in dir.files
    case Node => "package.json" in dir.files || "package-lock.json" in dir.files || "yarn.lock" in dir.files
    case DotNet => "packages.config" in dir.files || "paket.dependencies" in dir.files || HasDotnetProjectFile(dir)
  }

  /** The fixed position of each ecosystem in the detector's output. */
  function Rank(e: Ecosystem): nat {
    match e
    case Rust => 0
    case Python => 1
    case Java => 2
    case Node => 3
    case DotNet => 4
  }

  predicate InDetectionOrder(es: seq<Ecosystem>) {
    forall i, j :: 0 <= i < j < |es| ==> Rank(es[i]) < Rank(es[j])
  }

  /** `es` holds exactly the detected ecosystems of rank below `n`, in order,
      and no more than `n` of them. */
  predicate DetectedBelow(dir: Directory, es: seq<Ecosystem>, n: nat) {
    (forall e :: e in es <==> Rank(e) < n && Detected(dir, e)) && InDetectionOrder(es) && |es| <= n
  }

  /** One test of the detector keeps `DetectedBelow` for one more rank. */
  lemma DetectionStep(dir: Directory, es: seq<Ecosystem>, e: Ecosystem)
    requires DetectedBelow(dir, es, Rank(e))
    ensures DetectedBelow(dir, if Detected(dir, e) then es + [e] else es, Rank(e) + 1)
  {
    if Detected(dir, e) {
      var es' := es + [e];
      assert forall i :: 0 <= i < |es| ==> es'[i] in es;
    }
  }

  lemma AllRanksBelowFive(dir: Directory, es: seq<Ecosystem>)
    requires DetectedBelow(dir, es, 5)
    ensures forall e :: e in es <==> Detected(dir, e)
  {
    forall e ensures e in es <==> Detected(dir, e) {
      assert Rank(e) < 5;
    }
  }

  /** One test of `detect_ecosystems`: `e` is pushed when it is detected. */
  method DetectOne(dir: Directory, es: seq<Ecosystem>, e: Ecosystem) returns (es': seq<Ecosystem>)
    requires DetectedBelow(dir, es, Rank(e))
    ensures DetectedBelow(dir, es', Rank(e) + 1)
    ensures es' == if Detected(dir, e) then es + [e] else es
  {
    DetectionStep(dir, es, e);
    es' := es;
    if Detected(dir, e) {
      es' := es' + [e];
    }
  }

  /** `detect_ecosystems`: one test per ecosystem, in the fixed order, each
      pushing its ecosystem when it succeeds. */
  method DetectEcosystems(dir: Directory) returns (ecosystems: seq<Ecosystem>)
    ensures forall e :: e in ecosystems <==> Detected(dir, e)
    ensures InDetectionOrder(ecosystems)
    ensures |ecosystems| <= 5
  {
    ecosystems := [];
    ecosystems := DetectOne(dir, ecosystems, Rust);
    ecosystems := DetectOne(dir, ecosystems, Python);
    ecosystems := DetectOne(dir, ecosystems, Java);
    ecosystems := DetectOne(dir, ecosystems, Node);
    ecosystems := DetectOne(dir, ecosystems, DotNet);
    AllRanksBelowFive(dir, ecosystems);
  }

  /** A lone `gradle.lockfile` does not make a Java project, and a lone
      `paket.lock` does not make a .NET project. */
  lemma LockfilesAloneAreNotEnough(dir: Directory)
    requires dir.files <= {"gradle.lockfile", "paket.lock"}
    requires dir.listing.Some? && forall k :: 0 <= k < |dir.listing.value| ==> dir.listing.value[k] == "paket.lock"
    ensures !Detected(dir, Java) && !Detected(dir, DotNet)
  {
    assert "paket.lock" == "paket" + "." + "lock";
    ExtensionOfDottedName("paket", "lock");
  }

  /** An unreadable directory contributes no project-file match, so .NET is
      then detected only through its two marker files. */
  lemma UnreadableDirectoryHasNoProjectFile(files: set<string>)
    ensures Detected(Directory(files, None), DotNet) <==> "packages.config" in files || "paket.dependencies" in files
  {
  }

  /** A project file is enough to detect .NET. */
  lemma ProjectFileDetectsDotNet(files: set<string>, names: seq<string>, i: nat)
    requires i < |names| && Extension(names[i]) == Some("csproj")
    ensures Detected(Directory(files, Some(names)), DotNet)
  {
    assert IsProjectFile(names[i]);
  }

  /** An empty directory yields no ecosystem. */
  lemma EmptyDirectoryDetectsNothing(e: Ecosystem)
    ensures !Detected(Directory({}, Some([])), e)
  {
  }
}
