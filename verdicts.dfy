/** The classification step and the exit status: every dependency's risk
    and policy verdict from its effective license. */
module Verdicts {
  import opened Wrappers
  import opened Models
  import opened Configuration
  import opened Classifier
  import opened Seqs


  /** A dependency with its risk and verdict computed from its effective
      license. */
  function Classified(d: Dependency, config: Config): (d': Dependency)
    ensures d'.risk == Classify(EffectiveLicense(d))
    ensures d'.verdict == ApplyPolicy(config, Some(EffectiveLicense(d)))
    ensures d'.name == d.name && d'.version == d.version && d'.ecosystem == d.ecosystem
    ensures d'.licenseRaw == d.licenseRaw && d'.licenseSpdx == d.licenseSpdx && d'.source == d.source
  {
    var license := EffectiveLicense(d);
    d.(risk := Classify(license), verdict := ApplyPolicy(config, Some(license)))
  }

  /** Classifying again changes nothing: the license fields it reads are
      not the ones it writes. */
  lemma ClassifiedIsIdempotent(d: Dependency, config: Config)
    ensures Classified(Classified(d, config), config) == Classified(d, config)
  {
  }

  /** The placeholders the analyzers leave do not matter: two dependencies
      that differ only in risk and verdict are classified alike. */
  lemma ClassifiedIgnoresPlaceholders(d: Dependency, risk: LicenseRisk, verdict: PolicyVerdict, config: Config)
    ensures Classified(d.(risk := risk, verdict := verdict), config) == Classified(d, config)
  {
  }

  /** The classification under `config` as a function value. */
  function Classification(config: Config): (f: Dependency -> Dependency)
    ensures forall d :: f(d).risk == Classify(EffectiveLicense(d)) && f(d).verdict == ApplyPolicy(config, Some(EffectiveLicense(d)))
    ensures forall d :: f(d).name == d.name && f(d).version == d.version && f(d).ecosystem == d.ecosystem
  {
    d => Classified(d, config)
  }

  /** Every dependency classified, in place and in order. */
  function ClassifiedAll(deps: seq<Dependency>, config: Config): (r: seq<Dependency>)
    ensures |r| == |deps|
    ensures forall i :: 0 <= i < |deps| ==> r[i] == Classified(deps[i], config)
  {
    Mapped(deps, Classification(config))
  }

  /** The loop over `&mut all_deps` that sets each risk and verdict. */
  method ClassifyAll(deps: array<Dependency>, config: Config)
    modifies deps
    ensures deps[..] == ClassifiedAll(old(deps[..]), config)
  {
    MapInPlace(deps, Classification(config));
  }

  /** `has_errors`. */
  predicate HasErrors(deps: seq<Dependency>) {
    exists i :: 0 <= i < |deps| && deps[i].verdict == PolicyVerdict.Error
  }

  /** The exit status after the report: 1 exactly when some dependency has
      the verdict error. */
  function ExitStatus(deps: seq<Dependency>): (code: nat)
    ensures code == 1 <==> HasErrors(deps)
    ensures code == 0 <==> forall i :: 0 <= i < |deps| ==> deps[i].verdict != PolicyVerdict.Error
  {
    if HasErrors(deps) then 1 else 0
  }

  /** Under the built-in policy a GPL-3.0 dependency fails the run. */
  lemma GplFailsTheBuiltInPolicy(deps: seq<Dependency>, i: nat)
    requires i < |deps| && deps[i].licenseSpdx == Some("GPL-3.0")
    ensures ExitStatus(ClassifiedAll(deps, DefaultConfig())) == 1
  {
    DefaultTableVerdicts();
    assert ClassifiedAll(deps, DefaultConfig())[i].verdict == PolicyVerdict.Error;
  }
}
