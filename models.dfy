/** The domain records and enumerations of the checker, with their display strings. */
module Models {
  import opened Wrappers

  /** Risk tier of a license, independent of any policy. */
  datatype LicenseRisk = Permissive | WeakCopyleft | StrongCopyleft | Proprietary | Unknown

  /** Outcome of the policy for one dependency. */
  datatype PolicyVerdict = Pass | Warn | Error

  /** The package ecosystems the checker knows. DotNet is used by the detector,
      the .NET analyzer and the pipeline although the enum declaration in the
      models file lists only four variants. */
  datatype Ecosystem = Rust | Python | Java | Node | DotNet

  /** Where a dependency's license string came from. Cache (the local Cargo
      registry cache) is used by the Rust analyzer although the enum declaration
      in the models file lists only three variants. */
  datatype LicenseSource = Manifest | Registry | Cache | Unknown

  /** One third-party dependency. `risk` and `verdict` carry the placeholders
      Unknown and Warn until the pipeline classifies it. */
  datatype Dependency = Dependency(
    name: string,
    version: string,
    ecosystem: Ecosystem,
    licenseRaw: Option<string>,
    licenseSpdx: Option<string>,
    risk: LicenseRisk,
    verdict: PolicyVerdict,
    source: LicenseSource)

  /** A freshly extracted dependency: no license, placeholder risk and verdict. */
  function Unlicensed(name: string, version: string, eco: Ecosystem): (d: Dependency)
    ensures d.name == name && d.version == version && d.ecosystem == eco
    ensures d.licenseRaw.None? && d.licenseSpdx.None?
    ensures d.risk == LicenseRisk.Unknown && d.verdict == Warn && d.source == LicenseSource.Unknown
  {
    Dependency(name, version, eco, None, None, LicenseRisk.Unknown, Warn, LicenseSource.Unknown)
  }

  /** The license string the checker evaluates: the SPDX field, else the raw
      field, else the literal `unknown`. */
  function EffectiveLicense(d: Dependency): (lic: string)
    ensures d.licenseSpdx.Some? ==> lic == d.licenseSpdx.value
    ensures d.licenseSpdx.None? && d.licenseRaw.Some? ==> lic == d.licenseRaw.value
    ensures d.licenseSpdx.None? && d.licenseRaw.None? ==> lic == "unknown"
  {
    d.licenseSpdx.Or(d.licenseRaw).GetOr("unknown")
  }

  function RiskDisplay(r: LicenseRisk): string {
    match r
    case Permissive => "Permissive"
    case WeakCopyleft => "Weak Copyleft"
    case StrongCopyleft => "Strong Copyleft"
    case Proprietary => "Proprietary"
    case Unknown => "Unknown"
  }

  function VerdictDisplay(v: PolicyVerdict): string {
    match v
    case Pass => "pass"
    case Warn => "warn"
    case Error => "error"
  }

  function EcosystemDisplay(e: Ecosystem): string {
    match e
    case Rust => "Rust"
    case Python => "Python"
    case Java => "Java"
    case Node => "Node"
    case DotNet => "DotNet"
  }

  function SourceDisplay(s: LicenseSource): string {
    match s
    case Manifest => "manifest"
    case Registry => "registry"
    case Cache => "cache"
    case Unknown => "unknown"
  }

  /** Distinct variants display differently, for each of the four enums; so a
      display string identifies its variant. */
  lemma DisplaysAreInjective()
    ensures forall a, b :: RiskDisplay(a) == RiskDisplay(b) ==> a == b
    ensures forall a, b :: VerdictDisplay(a) == VerdictDisplay(b) ==> a == b
    ensures forall a, b :: EcosystemDisplay(a) == EcosystemDisplay(b) ==> a == b
    ensures forall a, b :: SourceDisplay(a) == SourceDisplay(b) ==> a == b
  {
  }

  /** Verdicts display in lower case. */
  lemma VerdictDisplayLowercase(v: PolicyVerdict)
    ensures forall i :: 0 <= i < |VerdictDisplay(v)| ==> 'a' <= VerdictDisplay(v)[i] <= 'z'
  {
  }
}
