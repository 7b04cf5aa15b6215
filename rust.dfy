/** The Rust analyzer: the external crates of `Cargo.lock`, each with the
    license found for it in the local Cargo registry cache. */
module RustAnalyzer {
  import opened Wrappers
  import opened Seqs
  import opened Models

  /** One `[[package]]` table of `Cargo.lock`. Packages without a `source`
      are members of the local workspace. */
  datatype CargoPackage = CargoPackage(name: string, version: string, source: Option<string>)

  /** The lockfile as the analyzer finds it: absent, present but not
      readable as a lockfile (an I/O or TOML error), or its packages in
      file order. */
  datatype CargoLock = Absent | Unreadable(message: string) | Packages(packages: seq<CargoPackage>)

  /** The cache lookup by crate name and version: the `license` field of the
      cached crate's `Cargo.toml`, if there is one. */
  type CacheLookup = (string, string) -> Option<string>

  /** The dependency a package becomes: none for a workspace member. */
  function CrateDep(cache: CacheLookup, p: CargoPackage): (r: Option<Dependency>)
    ensures r.Some? <==> p.source.Some?
    ensures r.Some? ==> r.value.name == p.name && r.value.version == p.version && r.value.ecosystem == Rust
    ensures r.Some? ==> r.value.licenseRaw == cache(p.name, p.version) && r.value.licenseSpdx == cache(p.name, p.version)
    ensures r.Some? ==> (r.value.source == Cache <==> cache(p.name, p.version).Some?)
    ensures r.Some? ==> (r.value.source == LicenseSource.Unknown <==> cache(p.name, p.version).None?)
    ensures r.Some? ==> r.value.risk == LicenseRisk.Unknown && r.value.verdict == Warn
  {
    if p.source.None? then None
    else
      var license := cache(p.name, p.version);
      var source := if license.Some? then Cache else LicenseSource.Unknown;
      Some(Dependency(p.name, p.version, Rust, license, license, LicenseRisk.Unknown, Warn, source))
  }

  function External(p: CargoPackage): Option<CargoPackage> {
    if p.source.Some? then Some(p) else None
  }

  /** The packages with a `source`, in lockfile order. */
  function Externals(packages: seq<CargoPackage>): seq<CargoPackage> {
    Collect(packages, External)
  }

  /** `analyze`: no lockfile gives no dependencies, an unreadable one an
      error, and otherwise one dependency per external package. */
  function Analyze(lock: CargoLock, cache: CacheLookup): (r: Result<seq<Dependency>, string>)
    ensures lock.Absent? ==> r == Ok([])
    ensures lock.Unreadable? ==> r == Err(lock.message)
    ensures lock.Packages? ==> r.Ok?
  {
    match lock
    case Absent => Ok([])
    case Unreadable(message) => Err(message)
    case Packages(packages) => Ok(Collect(packages, p => CrateDep(cache, p)))
  }

  /** The dependencies are the external packages, one each and in order. */
  lemma {:induction false} OnePerExternal(packages: seq<CargoPackage>, cache: CacheLookup)
    ensures var deps := Collect(packages, p => CrateDep(cache, p));
            |deps| == |Externals(packages)| &&
            forall i :: 0 <= i < |deps| ==> CrateDep(cache, Externals(packages)[i]) == Some(deps[i])
    decreases |packages|
  {
    if packages != [] {
      var front := packages[..|packages| - 1];
      var last := packages[|packages| - 1];
      OnePerExternal(front, cache);
      assert External(last).Some? <==> CrateDep(cache, last).Some?;
    }
  }

  /** Every external package is kept and every kept package is external. */
  lemma ExternalsAreTheSourcedPackages(packages: seq<CargoPackage>)
    ensures forall p :: p in Externals(packages) <==> p in packages && p.source.Some?
  {
    CollectMembers(packages, External);
  }

  /** Workspace members contribute nothing wherever they stand. */
  lemma WorkspaceMembersContributeNothing(front: seq<CargoPackage>, member: CargoPackage, back: seq<CargoPackage>)
    requires member.source.None?
    ensures Externals(front + [member] + back) == Externals(front) + Externals(back)
  {
    CollectAppend(front + [member], back, External);
    CollectAppend(front, [member], External);
    CollectSingle(member, External);
  }
}
